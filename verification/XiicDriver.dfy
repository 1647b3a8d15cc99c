/** The transfer engine in its own form: a driver whose fields the handler updates
    in place, and the registers it writes. Every method is proved to compute the
    function of XiicSpec that bears its name. */
module XiicDriver {
  import opened Wrappers
  import opened XiicDevice
  import opened XiicSpec
  import opened XiicCursor
  import opened XiicReading
  import opened XiicTransfer
  import opened XiicHandler
  import opened XiicProgress
  import opened XiicSuccess

  /** tx_pos is not past the end of a write. */
  predicate WriteInBounds(s: State) {
    s.d.tx.Some? && !TxMsg(s.d).rd ==> s.d.txPos <= TxMsg(s.d).len
  }

  /** struct xiic_i2c */
  class XiicI2c {
    const config: Config
    var hw: Hw             // the controller's registers
    var msgs: seq<Msg>
    var txMsg: Option<nat>
    var rxMsg: Option<nat>
    var nmsgs: nat
    var txPos: nat
    var rxPos: nat
    var state: Status
    var dynamic: bool
    var prevMsgTx: bool
    var smbusBlockRead: bool
    var smbusActualLen: nat
    var completions: nat
    ghost var sent: seq<Msg>
    ghost var warned: bool
    ghost var overrun: bool

    /** The structure is allocated zeroed. */
    constructor (hw: Hw, config: Config)
      ensures this.hw == hw && this.config == config && Valid()
      ensures DrvAbs() == ZEROED && state == Done
    {
      this.hw, this.config := hw, config;
      msgs, txMsg, rxMsg, nmsgs, txPos, rxPos := [], None, None, 0, 0, 0;
      state, dynamic, prevMsgTx, smbusBlockRead, smbusActualLen := Done, false, false, false, 0;
      completions := 0;
      sent, warned, overrun := [], false, false;
    }

    ghost function DrvAbs(): Drv
      reads this
    {
      Drv(sent, msgs, txMsg, rxMsg, nmsgs, txPos, rxPos, state, dynamic, prevMsgTx,
          smbusBlockRead, smbusActualLen, completions, warned, overrun)
    }

    ghost function Abs(): State
      reads this
    {
      State(DrvAbs(), hw)
    }

    /** The pointers point into the message array. */
    ghost predicate InArray()
      reads this
    {
      && (txMsg.Some? ==> txMsg.value < |msgs|)
      && (rxMsg.Some? ==> rxMsg == txMsg)
    }

    /** What holds whenever the lock is free: the cursor of XiicCursor, and a write
        never past its length. */
    ghost predicate Valid()
      reads this
    {
      Cursor(Abs()) && WriteInBounds(Abs())
    }

    /** What the handler needs. It is less: a start that fails in its reinitialisation may
        leave transmit interrupts on for a read, and a stale tx_pos. */
    ghost predicate Serviceable()
      reads this
    {
      && CursorOf(DrvAbs()) && TxQuiet(Abs())
      && (Pend(hw) * {TxEmpty, TxHalf} != {} && txMsg.Some? ==> txPos <= msgs[txMsg.value].len)
    }

    // ----- Registers -----

    method GetDrr() returns (v: Byte)
      modifies this`hw
      ensures hw == PopDrr(old(hw)) && v == DrrValue(old(hw))
    {
      v := DrrValue(hw);
      hw := PopDrr(hw);
    }

    /** xiic_wait_tx_empty: a bit already latched ends the loop at once; when another comes,
        if it does, is the environment's choice */
    method WaitTxEmpty() returns (ok: bool)
      modifies this`hw
      ensures hw == Poll(old(hw)) && ok == PollOk(old(hw))
      ensures TxEmpty in old(hw).isr ==> ok && hw == old(hw)
      ensures ok == (TxEmpty in hw.isr) && (ok ==> hw.timedOut == old(hw.timedOut))
      ensures TxEmpty !in old(hw).isr && ok ==> hw.txLevel == 0
    {
      ok := PollOk(hw);
      hw := Poll(hw);
    }

    /** xiic_clear_rx_fifo. limit is the environment's choice: the number of bytes popped
        when time is up, if it is not 0 */
    method ClearRxFifo() returns (ok: bool)
      modifies this`hw
      ensures hw == DrainRx(old(hw)) && ok == DrainOk(old(hw))
      ensures ok ==> hw.rxFifo == []
      ensures !ok ==> |hw.rxFifo| < |old(hw).rxFifo|
    {
      var limit := 0;
      if hw.rxFifo != [] && hw.drains != [] {
        limit := hw.drains[0];
        hw := hw.(drains := hw.drains[1..]);
      }
      ghost var h := hw;
      var popped := 0;
      while hw.rxFifo != []
        invariant 0 <= popped <= |h.rxFifo| && hw == h.(rxFifo := h.rxFifo[popped..])
        invariant limit == 0 || popped < limit
        decreases |hw.rxFifo|
      {
        var _ := GetDrr();
        popped := popped + 1;
        if popped == limit {
          return false;
        }
      }
      return true;
    }

    /** xiic_reinit */
    method Reinit() returns (ret: Ret)
      modifies this`hw
      ensures hw == ReinitHw(old(hw), config.clkOk) && ret == ReinitRet(old(hw), config.clkOk)
      ensures hw.txLevel == 0 && hw.bus == Idle
      ensures ret.Ok? ==> hw.rxFifo == [] && hw.cr == {Enable}
                          && ArbLost in hw.ier && ArbLost !in hw.isr
      ensures !ret.Ok? ==> hw.ier <= old(hw).ier && hw.isr <= old(hw).isr
    {
      hide IrqClrEn;
      hw := Reset(hw);
      if !config.clkOk {
        return EInval;
      }
      hw := hw.(rfd := RX_FIFO_DEPTH - 1);
      hw := hw.(cr := {TxReset});
      hw := hw.(cr := {Enable});
      var ok := ClearRxFifo();
      if !ok {
        return ETimedOut;
      }
      ClrEnFields(hw, {ArbLost});
      hw := IrqClrEn(hw, {ArbLost});
      return Ok(0);
    }

    /** The part of xiic_i2c_probe that can refuse the controller: the adapter is added
        exactly if this succeeds */
    method Probe() returns (ret: Ret)
      requires DrvAbs() == ZEROED
      modifies this`hw
      ensures Abs() == Probed(old(hw), config) && ret == ProbeRet(old(hw), config) && Valid()
      ensures ret.Ok? ==> config.clkOk && StartXferRet(Abs(), config, (false, false)).Ok?
    {
      hide ReinitHw, ReinitRet;
      ghost var h := hw;
      ret := Reinit();
      ProbedAccepts(h, config);
    }

    // ----- xiic_read_rx and its helpers -----

    /** rx_msg->buf[rx_pos++] = DRR */
    method StoreByte() returns (v: Byte)
      requires InArray() && rxMsg.Some?
      modifies this`msgs, this`rxPos, this`overrun, this`hw
      ensures InArray()
      ensures var x := RxView(old(Abs()));
              Abs() == WithRx(old(Abs()), ReadByte(x)) && v == (if x.fifo == [] then 0 else x.fifo[0])
    {
      v := GetDrr();
      var i := rxMsg.value;
      var m := msgs[i];
      if rxPos < |m.buf| {
        msgs := msgs[i := m.(buf := m.buf[rxPos := v])];
      } else {
        overrun := true;
      }
      rxPos := rxPos + 1;
    }

    method StoreBytes(n: int)
      requires InArray() && rxMsg.Some?
      modifies this`msgs, this`rxPos, this`overrun, this`hw
      ensures InArray()
      ensures Abs() == WithRx(old(Abs()), ReadBytes(RxView(old(Abs())), n))
    {
      ghost var s := Abs();
      ViewRoundTrip(s);
      var i := 0;
      while i < n
        invariant InArray() && rxMsg == old(rxMsg) && txMsg == old(txMsg)
        invariant Abs() == WithRx(s, RxView(Abs()))
        invariant ReadBytes(RxView(Abs()), n - i) == ReadBytes(RxView(s), n)
        decreases n - i
      {
        ghost var t := Abs();
        var _ := StoreByte();
        WithRxTwice(s, t, ReadByte(RxView(t)));
        i := i + 1;
      }
    }

    /** The second half of xiic_smbus_block_read_setup: the length byte is n. */
    method SetBlockLength(n: Byte)
      requires InArray() && rxMsg.Some?
      modifies this`msgs, this`smbusBlockRead, this`smbusActualLen, this`hw
      ensures InArray()
      ensures Abs() == WithRx(old(Abs()), BlockLength(RxView(old(Abs())), n))
    {
      var m, rfdSet := msgs[rxMsg.value], 0;
      smbusBlockRead := true;
      if n <= SMBUS_BLOCK_MAX {
        var pecLen := m.len - 1;
        if n + pecLen > RX_FIFO_DEPTH || n + pecLen < 0 {
          rfdSet := RX_FIFO_DEPTH - 1;
          m := m.(len := Nat(n + 1 + pecLen));
        } else if 1 + n + pecLen < SMBUS_BLOCK_READ_MIN_LEN {
          m := m.(len := SMBUS_BLOCK_READ_MIN_LEN);
          smbusActualLen := Nat(1 + n + pecLen);
        } else {
          rfdSet := U8(n + pecLen - 2);
          m := m.(len := Nat(n + 1 + pecLen));
        }
        hw := hw.(rfd := rfdSet);
      } else {
        m := m.(len := 3);
        smbusBlockRead := false;
      }
      msgs := msgs[rxMsg.value := m];
    }

    /** xiic_smbus_block_read_setup */
    method SmbusBlockReadSetup()
      requires InArray() && rxMsg.Some?
      modifies this
      ensures InArray()
      ensures old(hw.rxFifo) != [] ==>
                var len, count := old(msgs[rxMsg.value].len), old(hw.rxFifo[0]);
                && rxMsg == old(rxMsg) && CountTaken(len, count, msgs[rxMsg.value].len, smbusBlockRead)
                && CountPlanned(len, count, old(hw.rfd), hw.rfd, old(smbusActualLen), smbusActualLen)
      ensures Abs() == WithRx(old(Abs()), BlockReadSetup(RxView(old(Abs()))))
    {
      hide ReadByte, BlockLength, WithRx, RxView;
      ghost var s, x := Abs(), RxView(Abs());
      ViewRoundTrip(s);
      ForgetRecvLen();
      ghost var t, y := Abs(), x.(m := x.m.(recvLen := false));
      WithRxTwice(s, s, y);
      var n := StoreByte();
      WithRxTwice(s, t, ReadByte(y));
      ghost var u := Abs();
      SetBlockLength(n);
      WithRxTwice(s, u, BlockLength(ReadByte(y), n));
      SetupIs(x, y);
      SetupFields(s);
    }

    /** rx_msg->flags &= ~I2C_M_RECV_LEN */
    method ForgetRecvLen()
      requires InArray() && rxMsg.Some?
      modifies this`msgs
      ensures InArray()
      ensures var x := RxView(old(Abs()));
              Abs() == WithRx(old(Abs()), x.(m := x.m.(recvLen := false)))
    {
      msgs := msgs[rxMsg.value := msgs[rxMsg.value].(recvLen := false)];
    }

    /** xiic_smbus_trim_len */
    method SmbusTrimLen()
      requires InArray() && rxMsg.Some?
      modifies this`msgs
      ensures InArray()
      ensures Abs() == WithRx(old(Abs()), TrimLen(RxView(old(Abs()))))
    {
      if smbusActualLen != 0 {
        msgs := msgs[rxMsg.value := msgs[rxMsg.value].(len := smbusActualLen)];
      }
    }

    method WriteCr(cr: set<CrBit>)
      requires InArray() && rxMsg.Some?
      modifies this`hw
      ensures hw == old(hw).(cr := cr)
      ensures Abs() == WithRx(old(Abs()), RxView(Abs()))
      ensures RxView(Abs()) == RxView(old(Abs())).(cr := cr)
    {
      ghost var s := Abs();
      hw := hw.(cr := cr);
      hide RxView, WithRx;
      OnlyCr(s, Abs());
    }

    /** The standard-mode part of xiic_read_rx, up to the loop that drains the FIFO. */
    method PrepareStandard(bytesInFifo: int) returns (bytesToRead: int)
      requires InArray() && rxMsg.Some? && !msgs[rxMsg.value].recvLen
      requires bytesInFifo == Available(RxView(Abs()))
      modifies this`hw
      ensures Abs() == WithRx(old(Abs()), RxView(Abs()))
      ensures ReadStandard(RxView(old(Abs())), nmsgs == 1) == ReadBytes(RxView(Abs()), bytesToRead)
    {
      hide ReadBytes, ReadStandard, RxView, WithRx, Available, Left;
      ghost var s := Abs();
      ViewFields(s);
      ViewRoundTrip(s);
      StandardCases(RxView(s), nmsgs == 1);
      bytesToRead := bytesInFifo;
      var bytesRem := msgs[rxMsg.value].len - rxPos - bytesInFifo;
      if bytesRem > RX_FIFO_DEPTH {
        bytesToRead := bytesInFifo;
      } else if bytesRem > 1 {
        bytesToRead := bytesRem - 1;
      } else if bytesRem == 1 {
        bytesToRead := 1;
        WriteCr(hw.cr + {NoAck});
      } else {
        bytesToRead := bytesInFifo;
        if nmsgs == 1 {
          WriteCr(hw.cr - {Msms});
        }
        ghost var t := Abs();
        WriteCr(hw.cr - {NoAck});
        WithRxTwice(s, t, RxView(Abs()));
      }
    }

    /** xiic_read_rx */
    method ReadRx()
      requires InArray() && rxMsg.Some?
      modifies this
      ensures InArray()
      ensures Abs() == WithRx(old(Abs()), XiicSpec.ReadRx(RxView(old(Abs())), old(dynamic), old(nmsgs) == 1))
    {
      hide ReadBytes, BlockReadSetup, ReadStandard, U8;
      ghost var s := Abs();
      ViewRoundTrip(s);
      var bytesInFifo := Rfo(hw) + 1;
      if bytesInFifo > msgs[rxMsg.value].len - rxPos {
        bytesInFifo := msgs[rxMsg.value].len - rxPos;
      }
      if dynamic {
        StoreBytes(bytesInFifo);
        SetNextWatermark(s);
      } else if msgs[rxMsg.value].recvLen {
        StandardBlockRead(RxView(s), nmsgs == 1);
        SmbusBlockReadSetup();
      } else {
        var bytesToRead := PrepareStandard(bytesInFifo);
        ghost var t := Abs();
        StoreBytes(bytesToRead);
        WithRxTwice(s, t, ReadBytes(RxView(t), bytesToRead));
      }
    }

    /** Dynamic mode, after the chunk has been drained: the watermark for the next one. */
    method SetNextWatermark(ghost s: State)
      requires InArray() && rxMsg.Some? && s.d.rx == rxMsg && rxMsg.value < |s.d.msgs|
      requires var x := RxView(s); Abs() == WithRx(s, ReadBytes(x, Available(x)))
      modifies this`hw
      ensures Abs() == WithRx(s, ReadDynamic(RxView(s)))
    {
      hide ReadBytes;
      hw := hw.(rfd := U8(Min(U8(msgs[rxMsg.value].len - rxPos), RX_FIFO_DEPTH) - 1));
    }

    // ----- Starting a message -----

    /** tx_msg->buf[tx_pos++] */
    method FetchByte() returns (data: nat)
      requires InArray() && txMsg.Some?
      modifies this`txPos, this`overrun
      ensures data == ByteAt(msgs[txMsg.value], old(txPos)) && txPos == old(txPos) + 1
      ensures overrun == (old(overrun) || old(txPos) >= |msgs[txMsg.value].buf|)
    {
      data := ByteAt(msgs[txMsg.value], txPos);
      overrun := overrun || txPos >= |msgs[txMsg.value].buf|;
      txPos := txPos + 1;
    }

    /** One byte of the loop in xiic_fill_tx_fifo */
    method SendByte() returns (ok: bool)
      requires InArray() && txMsg.Some?
      modifies this`txPos, this`overrun, this`hw
      ensures var j, x := JobOf(old(DrvAbs())), TxView(old(Abs()));
              Abs() == WithTx(old(Abs()), FillByte(j, x)) && ok == !FillGivesUp(j, x)
    {
      hide OrBit, FillByte, WithTx, Poll, PollOk, WriteDtr, FillGivesUp;
      FillByteIs(Abs());
      var data := FetchByte();
      ok := true;
      if msgs[txMsg.value].len - txPos == 0 && nmsgs == 1 {
        ok := SendLast(data);
      } else {
        hw := WriteDtr(hw, data);
      }
    }

    /** The last byte of the transfer, and STOP */
    method SendLast(data: nat) returns (ok: bool)
      modifies this`hw
      ensures ok == (dynamic || PollOk(old(hw)))
      ensures hw == if dynamic then WriteDtr(old(hw), OrBit(data, DYN_STOP))
                    else if ok then
                      var h := Poll(old(hw));
                      WriteDtr(h.(cr := h.cr - {Msms}, behind := h.txLevel), data)
                    else Poll(old(hw))
    {
      if dynamic {
        hw := WriteDtr(hw, OrBit(data, DYN_STOP));
        return true;
      }
      ok := WaitTxEmpty();
      if ok {
        hw := hw.(cr := hw.cr - {Msms}, behind := hw.txLevel);
        hw := WriteDtr(hw, data);
      }
    }

    /** xiic_fill_tx_fifo */
    method FillTxFifo()
      requires InArray() && txMsg.Some? && txPos <= msgs[txMsg.value].len
      modifies this`txPos, this`overrun, this`hw
      ensures InArray() && txPos <= msgs[txMsg.value].len
      ensures Abs() == FillState(old(Abs()))
    {
      hide FillByte, FillBytes, FillGivesUp, FillState, WithTx, Tfo;
      ghost var s, j := Abs(), JobOf(DrvAbs());
      TfoFits(hw);
      var len := Min(TX_FIFO_DEPTH - Tfo(hw) - 1, msgs[txMsg.value].len - txPos);
      ghost var n := len;
      FillStateIs(s);
      TxRoundTrip(s);
      while len != 0
        invariant 0 <= len && txPos + len <= msgs[txMsg.value].len
        invariant Abs() == WithTx(s, TxView(Abs()))
        invariant FillBytes(j, TxView(Abs()), len) == FillBytes(j, TxView(s), n)
        decreases len
      {
        ghost var t := Abs();
        FillByteMoves(j, TxView(t));
        FillBytesFrom(j, TxView(t), len);
        len := len - 1;
        SameJob(s, t);
        var ok := SendByte();
        WithTxTwice(s, t, FillByte(j, TxView(t)));
        if !ok {
          SameJob(s, Abs());
          return;
        }
      }
      NothingLeft(j, TxView(Abs()));
      SameJob(s, Abs());
    }

    /** The dynamic-mode half of xiic_start_recv: the controller is told the length. */
    method StartReadDynamic(msg: Msg)
      modifies this`hw
      ensures hw == RecvDynamicHw(old(hw), msg, nmsgs == 1)
    {
      hide OrBit, AddrByte, IrqClrEn, DynamicBus;
      hw := IrqClrEn(hw, {RxFull, TxError});
      ghost var h := hw;
      var bytes := Min(U8(msg.len), RX_FIFO_DEPTH);
      if msg.len > 0 {
        bytes := U8(bytes - 1);
      }
      hw := hw.(rfd := bytes);
      hw := WriteDtr(hw, OrBit(AddrByte(msg), DYN_START));
      hw := WriteDtr(hw, if nmsgs == 1 then OrBit(msg.len, DYN_STOP) else msg.len);
      BusOfRead(h, hw, msg.len);
      hw := ReadBus(hw, DynamicBus(hw, msg.len), msg);
      hw := IrqClrEn(hw, {Bnb});
    }

    /** The watermark and control word of a standard-mode read */
    method PlanRead(msg: Msg, cr0: set<CrBit>) returns (cr: set<CrBit>, rfdSet: nat)
      ensures cr == FirstCr(cr0, msg) && rfdSet == FirstRfd(msg)
    {
      cr, rfdSet := cr0, 0;
      if msg.len > RX_FIFO_DEPTH {
        rfdSet := RX_FIFO_DEPTH - 1;
      } else if msg.len == 1 {
        if !msg.recvLen {
          cr := cr + {NoAck};
        }
      } else if msg.len != 0 {
        rfdSet := U8(msg.len - 2);
      }
    }

    /** The standard-mode half, after the wait: the controller reads until a NACK. */
    method StartReadStandard(msg: Msg)
      modifies this`hw
      ensures hw == RecvStandardHw(old(hw), msg)
    {
      hide AddrByte, IrqClrEn, FirstCr, FirstRfd, WriteDtr, ReadBus;
      var cr, rfdSet := PlanRead(msg, hw.cr);
      if Msms in cr {
        hw := hw.(cr := cr + {RepStart} - {DirTx});
      }
      hw := IrqClrEn(hw.(rfd := rfdSet), {RxFull, TxError});
      hw := WriteDtr(hw, AddrByte(msg));
      if Msms !in cr {
        hw := hw.(cr := cr + {Msms} - {DirTx});
      }
      hw := ReadBus(hw, Std, msg);
    }

    /** xiic_start_recv */
    method StartRecv()
      requires InArray() && txMsg.Some?
      modifies this
      ensures Abs() == XiicSpec.StartRecv(old(Abs()))
      ensures InArray()
      ensures rxMsg == txMsg && smbusActualLen == 0
      ensures txMsg == old(txMsg) && msgs == old(msgs)
    {
      hide RecvDynamicHw, RecvStandardHw, Poll, PollOk, IrqClrEn;
      WaitIgnoresEnables(hw);
      var msg := msgs[txMsg.value];
      rxMsg := txMsg;
      smbusActualLen := 0;
      hw := IrqDis(hw, {TxHalf, TxEmpty});
      if dynamic {
        StartReadDynamic(msg);
      } else {
        if prevMsgTx {
          var ok := WaitTxEmpty();
          if !ok {
            return;
          }
        }
        StartReadStandard(msg);
      }
      EndStart(msg.len);
    }

    /** The end of xiic_start_recv: the message counts as sent */
    method EndStart(len: nat)
      modifies this`hw, this`txPos, this`prevMsgTx
      ensures hw == if nmsgs == 1 then IrqClrEn(old(hw), {Bnb}) else old(hw)
      ensures txPos == len && !prevMsgTx
    {
      if nmsgs == 1 {
        hw := IrqClrEn(hw, {Bnb});
      }
      txPos := len;
      prevMsgTx := false;
    }

    /** The dynamic-mode half of xiic_start_send */
    method StartSendDynamic()
      requires InArray() && txMsg.Some? && txPos == 0
      modifies this`txPos, this`overrun, this`hw
      ensures var s := old(Abs());
              Abs() == FillState(State(s.d, SendDynamicHw(s.h, TxMsg(s.d), s.d.nmsgs == 1)))
      ensures txPos <= msgs[txMsg.value].len
    {
      hide FillState, OrBit;
      var msg := msgs[txMsg.value];
      var data := OrBit(AddrByte(msg), DYN_START);
      if nmsgs == 1 && msg.len == 0 {
        data := OrBit(data, DYN_STOP);
      }
      hw := WriteDtr(hw, data);
      hw := IrqClrEn(hw, {TxEmpty, TxError, Bnb} + (if nmsgs != 1 || msg.len != 0 then {TxHalf} else {}));
      FillTxFifo();
    }

    /** The standard-mode half, after the wait */
    method StartSendStandard()
      requires InArray() && txMsg.Some? && txPos == 0
      modifies this`txPos, this`overrun, this`hw
      ensures var s := old(Abs());
              var t := FillState(State(s.d, SendStandardHw(s.h, TxMsg(s.d))));
              DrvAbs() == t.d && hw == SendStandardEndHw(t.h, Msms in s.h.cr)
      ensures txPos <= msgs[txMsg.value].len
    {
      hide FillState;
      var cr := hw.cr;
      if Msms in cr {
        hw := hw.(cr := cr + {RepStart, DirTx} - {NoAck});
      }
      hw := WriteDtr(hw, AddrByte(msgs[txMsg.value]));
      FillTxFifo();
      if Msms !in cr {
        hw := hw.(cr := hw.cr + {Msms, DirTx});
      }
      hw := IrqClrEn(hw, {TxEmpty, TxError, Bnb});
    }

    /** xiic_start_send */
    method StartSend()
      requires InArray() && txMsg.Some? && txPos == 0
      modifies this
      ensures Abs() == XiicSpec.StartSend(old(Abs()))
      ensures InArray() && txMsg.Some? && txPos <= msgs[txMsg.value].len
    {
      hide FillState, Poll, SendDynamicHw, SendStandardHw, SendStandardEndHw;
      if dynamic {
        StartSendDynamic();
      } else {
        if prevMsgTx {
          var ok := WaitTxEmpty();
          if !ok {
            return;
          }
        }
        StartSendStandard();
      }
      prevMsgTx := true;
    }

    /** __xiic_start_xfer */
    method StartNext()
      requires InArray()
      modifies this
      ensures Abs() == XiicSpec.StartNext(old(Abs()))
      ensures InArray()
      ensures txMsg.Some? && !msgs[txMsg.value].rd ==> txPos <= msgs[txMsg.value].len
    {
      hide XiicSpec.StartRecv, XiicSpec.StartSend;
      if txMsg.None? {
        return;
      }
      rxPos := 0;
      txPos := 0;
      state := Start;
      hw := OpenLog(hw);
      if msgs[txMsg.value].rd {
        StartRecv();
      } else {
        StartSend();
      }
    }

    // ----- xiic_process -----

    /** xiic_wakeup: the next start will not be refused by this driver */
    method Wakeup(code: Status)
      modifies this
      ensures DrvAbs() == XiicSpec.Wakeup(old(DrvAbs()), code) && hw == old(hw)
      ensures StartXferRet(Abs(), config, (false, false)) != EBusy
      ensures completions == old(completions) + 1 && state == code
    {
      txMsg := None;
      rxMsg := None;
      nmsgs := 0;
      state := code;
      completions := completions + 1;
    }

    /** The end of a read: trim, forget rx_msg, and move on if there is a next message. */
    method EndRead() returns (more: bool)
      requires CursorOf(DrvAbs()) && rxMsg.Some?
      modifies this
      ensures var s1 := WithRx(old(Abs()), TrimLen(RxView(old(Abs()))));
              Abs() == State(Advance(s1.d.(rx := None)), s1.h) && more == (old(nmsgs) > 1)
    {
      hide TrimLen;
      SmbusTrimLen();
      rxMsg := None;
      more := nmsgs > 1;
      if more {
        nmsgs := nmsgs - 1;
        txMsg := Some(txMsg.value + 1);
      }
    }

    /** The "receive FIFO full" branch of xiic_process */
    method ServiceRx(isr: set<Irq>, pend: set<Irq>, clr0: set<Irq>)
      returns (clr: set<Irq>, more: bool, jumped: bool)
      requires CursorOf(DrvAbs()) && isr == hw.isr
      modifies this
      ensures var p := RxPart(old(Abs()), pend, clr0);
              Abs() == p.s && clr == p.clr && more == p.more && jumped == p.jumped
      ensures CursorOf(DrvAbs())
    {
      hide XiicSpec.ReadRx, TrimLen, WithRx, Advance;
      ghost var s, last := Abs(), nmsgs == 1;
      RxPartKeepsCursor(s, pend, clr0);
      clr, more, jumped := clr0, false, false;
      if RxFull !in pend {
        return;
      }
      clr := clr + {RxFull};
      if rxMsg.None? {
        var _ := ClearRxFifo();
        jumped := true;
        return;
      }
      ReadRx();
      ghost var x := XiicSpec.ReadRx(RxView(s), s.d.dynamic, last);
      ReadKeepsCursor(s, x);
      RxKeepsFrame(s, x);
      if msgs[rxMsg.value].len - rxPos == 0 {
        more := EndRead();
        clr := clr + (isr * {TxError});
        RxKeepsFrame(s, TrimLen(x));
      }
    }

    /** The "transmit FIFO empty or half empty" branch */
    method ServiceTx(pend: set<Irq>, clr0: set<Irq>, more0: bool)
      returns (clr: set<Irq>, more: bool, jumped: bool)
      requires CursorOf(DrvAbs())
      requires more0 || rxMsg.Some? ==> pend * {TxEmpty, TxHalf} == {}
      requires pend * {TxEmpty, TxHalf} != {} && txMsg.Some? ==> txPos <= msgs[txMsg.value].len
      modifies this
      ensures var p := TxPart(Pass(old(Abs()), clr0, more0, false, None), pend);
              Abs() == p.s && clr == p.clr && more == p.more && jumped == p.jumped
      ensures CursorOf(DrvAbs())
      ensures !more && old(WriteInBounds(Abs())) ==> WriteInBounds(Abs())
      ensures pend * {TxEmpty, TxHalf} != {} && !more ==>
                (old(txMsg).Some? && old(txPos == msgs[txMsg.value].len) ==> TxHalf !in hw.ier)
    {
      hide FillState;
      TxPartKeepsCursor(Pass(Abs(), clr0, more0, false, None), pend);
      clr, more, jumped := clr0, more0, false;
      var bits := pend * {TxEmpty, TxHalf};
      if bits == {} {
        return;
      }
      clr := clr + bits;
      if txMsg.None? {
        jumped := true;
        return;
      }
      if msgs[txMsg.value].len - txPos != 0 {
        FillTxFifo();
      } else if nmsgs > 1 && TxEmpty in pend {
        nmsgs := nmsgs - 1;
        txMsg := Some(txMsg.value + 1);
        more := true;
      } else {
        hw := IrqDis(hw, {TxHalf});
      }
    }

    /** The "bus not busy" branch: a transfer that sees it is over, in Done only if nothing
        is being read and nothing left to send, and leaves no block-read flag */
    method ServiceBnb(pend: set<Irq>, clr0: set<Irq>, more: bool)
      returns (clr: set<Irq>, wake: Option<Status>)
      requires CursorOf(DrvAbs())
      modifies this
      ensures var p := BnbPart(Pass(old(Abs()), clr0, more, false, None), pend);
              Abs() == p.s && clr == p.clr && wake == p.wake
      ensures CursorOf(DrvAbs())
      ensures wake.Some? <==> Bnb in pend && txMsg.Some?
      ensures wake.Some? ==> !smbusBlockRead && Bnb !in hw.ier
      ensures wake == Some(Done) ==> nmsgs == 1 && rxMsg.None? && txPos == msgs[txMsg.value].len
      ensures old(WriteInBounds(Abs())) ==> WriteInBounds(Abs())
    {
      hide CursorOf, BnbPart, WriteInBounds, IrqDis;
      ghost var p := Pass(Abs(), clr0, more, false, None);
      assert InArray() by { CursorInArray(Abs()); }
      BnbPartKeepsCursor(p, pend);
      BnbFacts(p, pend);
      BnbKeepsBounds(p, pend);
      clr, wake := clr0, None;
      if Bnb in pend {
        clr := clr + {Bnb};
        hw := IrqDis(hw, {Bnb});
        if txMsg.Some? && smbusBlockRead {
          smbusBlockRead := false;
          txPos := msgs[txMsg.value].len;
        }
        if txMsg.Some? {
          wake := Some(if nmsgs == 1 && rxMsg.None? && msgs[txMsg.value].len - txPos == 0
                       then Done else Error);
        }
      }
    }

    /** The three branches, in order; each may jump past the later ones. */
    method Service(isr: set<Irq>, pend: set<Irq>, clr0: set<Irq>)
      returns (clr: set<Irq>, more: bool, wake: Option<Status>)
      requires Serviceable() && isr == hw.isr
      requires pend * {TxEmpty, TxHalf} <= Pend(hw)
      modifies this
      ensures var p := Branches(old(Abs()), pend, clr0);
              Abs() == p.s && clr == p.clr && more == p.more && wake == p.wake
      ensures CursorOf(DrvAbs())
      ensures !more && old(WriteInBounds(Abs())) ==> WriteInBounds(Abs())
    {
      hide RxPart, TxPart, BnbPart, CursorOf;
      ghost var s := Abs();
      RxPartKeepsCursor(s, pend, clr0);
      RxPartWakesNobody(s, pend, clr0);
      RxKeepsBounds(s, pend, clr0);
      ServiceFits(s, pend, clr0);
      var jumped;
      clr, more, jumped := ServiceRx(isr, pend, clr0);
      wake := None;
      ghost var p1 := RxPart(s, pend, clr0);
      if jumped {
        JumpsAreFinal(p1, pend);
        return;
      }
      ghost var p2 := TxPart(p1, pend);
      TxPartKeepsCursor(p1, pend);
      clr, more, jumped := ServiceTx(pend, clr, more);
      if jumped {
        JumpsAreFinal(p2, pend);
        return;
      }
      BnbPartKeepsCursor(p2, pend);
      clr, wake := ServiceBnb(pend, clr, more);
    }

    /** xiic_process up to the label "out" */
    method RunPass() returns (clr: set<Irq>, more: bool, wake: Option<Status>, noRxFull: bool)
      requires Serviceable()
      modifies this
      ensures var p := ProcessPass(old(Abs()), config.clkOk);
              Abs() == p.s && clr == p.clr && more == p.more && wake == p.wake
      ensures noRxFull == NoRxFullBit(old(Abs()))
      ensures CursorOf(DrvAbs())
      ensures !more && old(WriteInBounds(Abs())) ==> WriteInBounds(Abs())
    {
      hide Branches, ReinitHw;
      var isr, pend := hw.isr, hw.isr * hw.ier;
      clr, more, wake, noRxFull := {}, false, None, false;
      if ArbLost in pend || (TxError in pend && RxFull !in pend) {
        if rxMsg.Some? && ArbLost !in pend && hw.rxFifo != [] {
          var inFifo, space := Rfo(hw) + 1, msgs[rxMsg.value].len - rxPos;
          if space > 0 && inFifo >= space {
            noRxFull := RxFull !in isr;
            pend := pend + {RxFull};
            clr := {TxError};
            clr, more, wake := Service(isr, pend, clr);
            return;
          }
        }
        var _ := Reinit();
        if rxMsg.Some? || txMsg.Some? {
          wake := Some(Error);
        }
        return;
      }
      clr, more, wake := Service(isr, pend, clr);
    }

    /** xiic_process */
    method Process()
      requires Serviceable()
      modifies this
      ensures Abs() == XiicSpec.Process(old(Abs()), config.clkOk)
      ensures CursorOf(DrvAbs())
      ensures old(Valid()) ==> Valid()
    {
      hide ProcessPass, XiicSpec.StartNext, NoRxFullBit, Cursor, CursorOf, WriteInBounds;
      ghost var s := Abs();
      ProcessKeepsFields(s, config.clkOk);
      if Cursor(s) {
        ProcessKeepsCursor(s, config.clkOk);
      }
      var clr, more, wake, noRxFull := RunPass();
      if noRxFull {
        clr := clr - {RxFull};
      }
      assert InArray() by { CursorInArray(Abs()); }
      Leave(clr, more, wake);
    }

    /** After the label "out" */
    method Leave(clr: set<Irq>, more: bool, wake: Option<Status>)
      requires InArray()
      modifies this
      ensures Abs() == Finish(Pass(old(Abs()), clr, more, false, wake), false)
      ensures more || old(WriteInBounds(Abs())) ==> WriteInBounds(Abs())
    {
      hide XiicSpec.StartNext;
      hw := WriteIisr(hw, clr);
      if more {
        StartNext();
      }
      if wake.Some? {
        Wakeup(wake.value);
      }
      warned := warned || (more && wake.Some?);
    }

    // ----- xiic_start_xfer and xiic_xfer -----

    /** xiic_start_xfer. stuck: is the bus still busy after the tries? */
    method StartXfer(newMsgs: seq<Msg>, stuck: (bool, bool)) returns (ret: Ret)
      requires newMsgs != []
      modifies this
      ensures Abs() == XiicSpec.StartXfer(old(Abs()), newMsgs, config, stuck)
      ensures ret == StartXferRet(old(Abs()), config, stuck)
      ensures ret.Ok? ==> Valid()
      ensures !config.singlemaster && stuck.0 && stuck.1 ==>
                !ret.Ok? && DrvAbs() == old(DrvAbs()) && hw.dtr == old(hw).dtr
                && (ReinitRet(old(hw), config.clkOk).Ok? ==> ret == EBusy)
      ensures old(txMsg).Some? || old(rxMsg).Some? ==> ret == EBusy && Abs() == old(Abs())
    {
      hide ReinitHw, ReinitRet, XiicSpec.StartNext, ClearHistory;
      SharedBusIsRespected(Abs(), newMsgs, config, stuck);
      if StartXferRet(Abs(), config, stuck).Ok? {
        StartXferSetsCursor(Abs(), newMsgs, config, stuck);
      }
      if txMsg.Some? || rxMsg.Some? {
        return EBusy;
      }
      if !config.singlemaster && stuck.0 {
        ret := Reinit();
        if !ret.Ok? {
          return;
        }
        if stuck.1 {
          return EBusy;
        }
      }
      ret := Begin(newMsgs);
    }

    /** The rest of xiic_start_xfer, once the bus is free */
    method Begin(newMsgs: seq<Msg>) returns (ret: Ret)
      requires newMsgs != []
      modifies this
      ensures var s := old(Abs());
              var t := State(Submit(s.d, newMsgs, config.readBroken),
                             ReinitHw(ClearHistory(s.h), config.clkOk));
              Abs() == if ret.Ok? then XiicSpec.StartNext(t) else t
      ensures ret == ReinitRet(ClearHistory(old(hw)), config.clkOk)
      ensures ret.Ok? ==> WriteInBounds(Abs())
    {
      hide ReinitHw, XiicSpec.StartNext, ClearHistory, Submit;
      SubmitSetsCursor(DrvAbs(), newMsgs, config.readBroken);
      Enqueue(newMsgs);
      ret := Reinit();
      if ret.Ok? {
        StartNext();
      }
    }

    /** The fields of a new transfer */
    method Enqueue(newMsgs: seq<Msg>)
      requires newMsgs != []
      modifies this
      ensures DrvAbs() == Submit(old(DrvAbs()), newMsgs, config.readBroken)
      ensures hw == ClearHistory(old(hw))
    {
      hide ClearHistory, UsesDynamic;
      var dyn := UsesDynamicMode(newMsgs);
      NewHistory(newMsgs);
      txMsg := Some(0);
      rxMsg := None;
      nmsgs := |newMsgs|;
      completions := 0;
      dynamic := dyn;
      prevMsgTx := false;
    }

    /** What the model records about a transfer begins afresh. */
    method NewHistory(newMsgs: seq<Msg>)
      modifies this`msgs, this`sent, this`warned, this`overrun, this`hw
      ensures msgs == sent == newMsgs && !warned && !overrun && hw == ClearHistory(old(hw))
    {
      msgs, sent := newMsgs, newMsgs;
      warned, overrun := false, false;
      hw := ClearHistory(hw);
    }

    /** The loop of xiic_start_xfer that looks for a reason to use standard mode */
    method UsesDynamicMode(newMsgs: seq<Msg>) returns (dyn: bool)
      ensures dyn == UsesDynamic(newMsgs, config.readBroken)
      ensures dyn <==> forall m :: m in newMsgs ==>
                         !(m.rd && (config.readBroken || m.len > 255)) && !m.recvLen
    {
      dyn := true;
      var count := 0;
      while count < |newMsgs|
        invariant 0 <= count <= |newMsgs| && dyn
        invariant forall i :: 0 <= i < count ==> !ForcesStandard(newMsgs[i], config.readBroken)
      {
        var brokenRead := config.readBroken && newMsgs[count].rd;
        var maxReadLen := newMsgs[count].rd && newMsgs[count].len > MAX_READ_LENGTH_DYNAMIC;
        if brokenRead || maxReadLen || newMsgs[count].recvLen {
          dyn := false;
          break;
        }
        count := count + 1;
      }
    }

    /** What can happen while xiic_xfer sleeps: the bus moves on, or the handler runs. */
    method Dispatch(e: Event)
      requires Valid()
      modifies this
      ensures Abs() == Step(old(Abs()), e, config.clkOk) && Valid()
    {
      hide XiicSpec.Process, Clock, Latch, Drain;
      StepKeepsCursor(Abs(), e, config.clkOk);
      assert Serviceable() by { ValidIsServiceable(Abs()); }
      match e
      case ByteIn(b) => hw := Clock(hw, b);
      case IrqBits(bits) => hw := Latch(hw, bits);
      case TxLevel(v) => hw := Drain(hw, v);
      case Interrupt => Process();
    }

    method WaitForCompletion(events: seq<Event>)
      requires Valid()
      modifies this
      ensures Abs() == Run(old(Abs()), events, config.clkOk) && Valid()
    {
      hide Run, Step;
      ghost var s := Abs();
      assert events[0..] == events;
      var i := 0;
      while i < |events|
        invariant 0 <= i <= |events| && Valid()
        invariant Run(Abs(), events[i..], config.clkOk) == Run(s, events, config.clkOk)
      {
        RunUnfolds(Abs(), events[i..], config.clkOk);
        assert events[i..][1..] == events[i + 1..];
        Dispatch(events[i]);
        i := i + 1;
      }
      RunUnfolds(Abs(), events[i..], config.clkOk);
    }

    /** xiic_xfer. events: what happens until the completion or the time-out. A returned num
        is true if the list has a safe end, or the bus was not found free too early, or at
        least the handler has not warned, and the transfer has not gone astray; and with a
        safe end it is true only then. */
    method Xfer(newMsgs: seq<Msg>, stuck: (bool, bool), events: seq<Event>) returns (ret: Ret)
      requires newMsgs != []
      modifies this
      ensures var s := old(Abs());
              if StartXferRet(s, config, stuck).Ok? then
                var r := Run(XiicSpec.StartXfer(s, newMsgs, config, stuck), events, config.clkOk);
                Abs() == XferEnd(r) && ret == XferRet(r)
              else
                Abs() == XiicSpec.StartXfer(s, newMsgs, config, stuck)
                && ret == StartXferRet(s, config, stuck)
      ensures StartXferRet(old(Abs()), config, stuck).Ok? ==>
                && Valid() && txMsg.None? && rxMsg.None? && nmsgs == 0
                && ret == if completions == 0 then ETimedOut
                          else if state == Done then Ok(|newMsgs|) else EIo
      ensures ret.Ok? && !old(smbusBlockRead) && !Astray(hw)
              && (SafeEnd(newMsgs) || !warned
                  || HeldBus(XiicSpec.StartXfer(old(Abs()), newMsgs, config, stuck), events, config.clkOk))
              && ValidTransfer(newMsgs, UsesDynamic(newMsgs, config.readBroken))
              ==> AllDone(Abs()) && sent == newMsgs && ret == Ok(|newMsgs|)
      ensures ret.Ok? && !old(smbusBlockRead) && SafeEnd(newMsgs)
              && ValidTransfer(newMsgs, UsesDynamic(newMsgs, config.readBroken))
              && !RacyEmpty(newMsgs, UsesDynamic(newMsgs, config.readBroken), old(hw.chip.emptyRead))
              ==> (AllDone(Abs()) <==>
                     && !hw.timedOut
                     && SilentWhenEmpty(newMsgs, UsesDynamic(newMsgs, config.readBroken), old(hw.chip.emptyRead)))
    {
      hide Run, XiicSpec.StartXfer, AllDone, ValidTransfer, Step, UsesDynamic, SafeEnd, RacyEmpty,
           SilentWhenEmpty, Cursor, WriteInBounds, Astray, HeldBus;
      ghost var s := Abs();
      ret := StartXfer(newMsgs, stuck);
      if !ret.Ok? {
        return;
      }
      ghost var s1 := Abs();
      StartXferSetsCursor(s, newMsgs, config, stuck);
      RunKeepsCursor(s1, events, config.clkOk);
      ReturnIsTrue(s, newMsgs, config, stuck, events);
      WaitForCompletion(events);
      EndsOnce(Abs());
      assert WriteInBounds(XferEnd(Abs())) by { EndInBounds(Abs()); }
      if completions == 0 {
        txMsg := None;
        rxMsg := None;
        nmsgs := 0;
        ret := ETimedOut;
      } else if state == Done {
        ret := Ok(|msgs|);
      } else {
        ret := EIo;
      }
    }
  }

  lemma EndInBounds(r: State)
    requires WriteInBounds(r)
    ensures WriteInBounds(XferEnd(r))
  {
  }

  /** The results on success, about one call. */
  lemma ReturnIsTrue(s: State, msgs: seq<Msg>, c: Config, stuck: (bool, bool), events: seq<Event>)
    requires msgs != [] && StartXferRet(s, c, stuck).Ok?
    ensures var r := Run(XiicSpec.StartXfer(s, msgs, c, stuck), events, c.clkOk);
            XferRet(r).Ok? && !s.d.blockRead && ValidTransfer(msgs, UsesDynamic(msgs, c.readBroken)) ==>
              && (!Astray(r.h)
                  && (SafeEnd(msgs) || !r.d.warned
                      || HeldBus(XiicSpec.StartXfer(s, msgs, c, stuck), events, c.clkOk))
                  ==> AllDone(r) && r.d.sent == msgs)
              && (SafeEnd(msgs) && !RacyEmpty(msgs, UsesDynamic(msgs, c.readBroken), s.h.chip.emptyRead) ==>
                    (AllDone(r) <==>
                       && !r.h.timedOut
                       && SilentWhenEmpty(msgs, UsesDynamic(msgs, c.readBroken), s.h.chip.emptyRead)))
  {
    hide Run, XiicSpec.StartXfer, AllDone, ValidTransfer, Step, UsesDynamic, SafeEnd, RacyEmpty,
         SilentWhenEmpty, Astray, HeldBus;
    var dynamic := UsesDynamic(msgs, c.readBroken);
    if !s.d.blockRead && ValidTransfer(msgs, dynamic) {
      SuccessIsSound(s, msgs, c, stuck, events);
      if SafeEnd(msgs) {
        SafeListIsSound(s, msgs, c, stuck, events);
        if !RacyEmpty(msgs, dynamic, s.h.chip.emptyRead) {
          SuccessIff(s, msgs, c, stuck, events);
        }
      }
    }
  }

  lemma ProbedAccepts(h: Hw, c: Config)
    ensures ProbeRet(h, c).Ok? ==> c.clkOk && StartXferRet(Probed(h, c), c, (false, false)).Ok?
  {
    hide ReinitHw;
    ReinitFrame(h, c.clkOk);
  }

  lemma SubmitSetsCursor(d: Drv, msgs: seq<Msg>, readBroken: bool)
    requires msgs != []
    ensures var e := Submit(d, msgs, readBroken);
            e.tx == Some(0) && e.rx.None? && e.msgs == msgs
  {
  }

  lemma ValidIsServiceable(s: State)
    requires Cursor(s) && WriteInBounds(s)
    ensures CursorOf(s.d) && TxQuiet(s)
    ensures Pend(s.h) * {TxEmpty, TxHalf} != {} && s.d.tx.Some? ==>
              s.d.tx.value < |s.d.msgs| && s.d.txPos <= s.d.msgs[s.d.tx.value].len
  {
  }

  lemma CursorInArray(s: State)
    requires CursorOf(s.d)
    ensures s.d.tx.Some? ==> s.d.tx.value < |s.d.msgs|
    ensures s.d.rx.Some? ==> s.d.rx == s.d.tx
  {
  }

  /** The "bus not busy" branch, field by field. */
  lemma BnbFacts(p: Pass, pend: set<Irq>)
    requires !p.jumped && p.wake.None? && (p.s.d.tx.Some? ==> p.s.d.tx.value < |p.s.d.msgs|)
    ensures var d, q := p.s.d, BnbPart(p, pend);
            var looks := Bnb in pend && d.tx.Some? && d.blockRead;
            var pos := if looks then d.msgs[d.tx.value].len else d.txPos;
            && q.s == State(d.(blockRead := d.blockRead && !looks, txPos := pos),
                            if Bnb in pend then IrqDis(p.s.h, {Bnb}) else p.s.h)
            && q.clr == (if Bnb in pend then p.clr + {Bnb} else p.clr)
            && q.wake == (if Bnb !in pend || d.tx.None? then None
                          else if d.nmsgs == 1 && d.rx.None? && d.msgs[d.tx.value].len - pos == 0
                          then Some(Done) else Some(Error))
            && Bnb !in IrqDis(p.s.h, {Bnb}).ier
  {
  }

  lemma BnbKeepsBounds(p: Pass, pend: set<Irq>)
    ensures WriteInBounds(p.s) ==> WriteInBounds(BnbPart(p, pend).s)
  {
  }

  /** The read branch leaves a write alone. */
  lemma RxKeepsBounds(s: State, pend: set<Irq>, clr: set<Irq>)
    requires CursorOf(s.d)
    ensures var p := RxPart(s, pend, clr); WriteInBounds(s) && !p.more ==> WriteInBounds(p.s)
  {
    hide XiicSpec.ReadRx, TrimLen;
    RxPartKeepsCursor(s, pend, clr);
  }

  /** When the transmit branch is entered the read branch has done nothing to the message. */
  lemma ServiceFits(s: State, pend: set<Irq>, clr: set<Irq>)
    requires CursorOf(s.d) && TxQuiet(s) && pend * {TxEmpty, TxHalf} <= Pend(s.h)
    ensures var p := RxPart(s, pend, clr);
            && (p.more || p.s.d.rx.Some? ==> pend * {TxEmpty, TxHalf} == {})
            && (pend * {TxEmpty, TxHalf} != {} ==> p.s.d == s.d)
  {
    hide XiicSpec.ReadRx, TrimLen;
  }

  lemma RunUnfolds(s: State, events: seq<Event>, clkOk: bool)
    ensures Run(s, events, clkOk)
         == if events == [] then s else Run(Step(s, events[0], clkOk), events[1..], clkOk)
  {
  }

  /** A completed transfer has cleared its pointers; success keeps every message. */
  lemma EndsOnce(r: State)
    requires Cursor(r)
    ensures r.d.completed == 0 || (r.d.tx.None? && r.d.rx.None? && r.d.nmsgs == 0)
    ensures |r.d.msgs| == |r.d.sent|
    ensures Cursor(XferEnd(r))
  {
  }

  lemma ReadKeepsCursor(s: State, x: RxIo)
    requires CursorOf(s.d) && s.d.rx.Some?
    requires x == XiicSpec.ReadRx(RxView(s), s.d.dynamic, s.d.nmsgs == 1)
    ensures var t := WithRx(s, x);
            && CursorOf(t.d) && RxView(t) == x && RxMsg(t.d) == x.m
            && WithRx(t, TrimLen(x)) == WithRx(s, TrimLen(x))
  {
    hide XiicSpec.ReadRx, TrimLen;
    ReadRxKeepsDirection(RxView(s), s.d.dynamic, s.d.nmsgs == 1);
  }

  lemma RxKeepsFrame(s: State, x: RxIo)
    ensures var t := WithRx(s, x);
            t == State(s.d.(msgs := t.d.msgs, rxPos := t.d.rxPos, blockRead := t.d.blockRead,
                            actualLen := t.d.actualLen, overrun := t.d.overrun), t.h)
            && t.h.isr == s.h.isr && |t.d.msgs| == |s.d.msgs|
  {
  }

  lemma RxPartWakesNobody(s: State, pend: set<Irq>, clr: set<Irq>)
    ensures RxPart(s, pend, clr).wake.None?
  {
  }

  lemma JumpsAreFinal(p: Pass, pend: set<Irq>)
    requires p.jumped
    ensures TxPart(p, pend) == p && BnbPart(p, pend) == p
  {
  }

  lemma BusOfRead(h: Hw, g: Hw, len: nat)
    requires g.chip == h.chip
    ensures DynamicBus(g, len) == DynamicBus(h, len)
  {
  }

  lemma TfoFits(h: Hw)
    ensures 0 <= Tfo(h) < FIFO_DEPTH
  {
  }

  lemma SetupFields(s: State)
    requires s.d.rx.Some? && s.d.rx.value < |s.d.msgs|
    ensures s.h.rxFifo != [] ==>
              var t := WithRx(s, BlockReadSetup(RxView(s)));
              var len, count := s.d.msgs[s.d.rx.value].len, s.h.rxFifo[0];
              && t.d.rx == s.d.rx && |t.d.msgs| == |s.d.msgs|
              && CountTaken(len, count, t.d.msgs[s.d.rx.value].len, t.d.blockRead)
              && CountPlanned(len, count, s.h.rfd, t.h.rfd, s.d.actualLen, t.d.actualLen)
  {
    hide BlockReadSetup;
    if s.h.rxFifo != [] {
      CountDecides(RxView(s));
    }
  }

  lemma SetupIs(x: RxIo, y: RxIo)
    requires y == x.(m := x.m.(recvLen := false))
    ensures BlockReadSetup(x) == BlockLength(ReadByte(y), if x.fifo == [] then 0 else x.fifo[0])
    ensures y.fifo == x.fifo
  {
  }

  /** One byte, in terms of the registers. */
  function FillByteHw(h: Hw, j: TxJob, pos: nat): Hw {
    var data: nat := ByteAt(j.m, pos);
    if !AtLastByte(j, pos) then WriteDtr(h, data)
    else if j.dynamic then WriteDtr(h, OrBit(data, DYN_STOP))
    else if PollOk(h) then
      var g := Poll(h);
      WriteDtr(g.(cr := g.cr - {Msms}, behind := g.txLevel), data)
    else Poll(h)
  }

  lemma PushIs(s: State, x: TxIo, word: nat)
    requires s == WithTx(s, x)
    ensures WithTx(s, Push(x, word)) == State(s.d, WriteDtr(s.h, word))
  {
  }

  lemma FillByteIs(s: State)
    ensures var j, x, m := JobOf(s.d), TxView(s), TxMsg(s.d);
            && WithTx(s, FillByte(j, x))
            == State(s.d.(txPos := x.pos + 1, overrun := s.d.overrun || x.pos >= |m.buf|),
                     FillByteHw(s.h, j, x.pos))
            && FillGivesUp(j, x) == (AtLastByte(j, x.pos) && !s.d.dynamic && !PollOk(s.h))
  {
    hide OrBit, WithTx, Push, WriteDtr, Poll, ByteAt;
    var j, x, m := JobOf(s.d), TxView(s), TxMsg(s.d);
    var y := x.(pos := x.pos + 1, overrun := x.overrun || x.pos >= |j.m.buf|);
    var t := State(s.d.(txPos := y.pos, overrun := y.overrun), s.h);
    ViewMoved(s, y, t);
    PushIs(t, y, ByteAt(m, x.pos));
    PushIs(t, y, OrBit(ByteAt(m, x.pos), DYN_STOP));
    WithTxMoved(s, t, Push(y, ByteAt(m, x.pos)));
    WithTxMoved(s, t, Push(y, OrBit(ByteAt(m, x.pos), DYN_STOP)));
    if AtLastByte(j, x.pos) && !j.dynamic {
      LastByteIs(s, t, y, ByteAt(m, x.pos));
    }
  }

  lemma ViewMoved(s: State, y: TxIo, t: State)
    requires y == TxView(s).(pos := y.pos, overrun := y.overrun)
    requires t == State(s.d.(txPos := y.pos, overrun := y.overrun), s.h)
    ensures WithTx(t, y) == t && TxView(t) == y
  {
  }

  lemma WithTxMoved(s: State, t: State, x: TxIo)
    requires t == State(s.d.(txPos := t.d.txPos, overrun := t.d.overrun), s.h)
    ensures WithTx(t, x) == WithTx(s, x)
  {
  }

  /** The last byte, behind the wait. */
  lemma LastByteIs(s: State, t: State, y: TxIo, data: nat)
    requires t == State(s.d.(txPos := y.pos, overrun := y.overrun), s.h) && TxView(t) == y
    ensures PollOk(s.h) ==>
              var z, g := Waited(y), Poll(s.h);
              WithTx(s, Push(z.(cr := z.cr - {Msms}, behind := z.level), data))
              == State(t.d, WriteDtr(g.(cr := g.cr - {Msms}, behind := g.txLevel), data))
    ensures !PollOk(s.h) ==> WithTx(s, y.(polls := y.polls[1..], timedOut := true)) == State(t.d, Poll(s.h))
  {
    hide Push, WriteDtr, WithTx;
    var z, g := Waited(y), Poll(s.h);
    if PollOk(s.h) {
      WaitedIs(t, y);
      var v := State(t.d, g.(cr := g.cr - {Msms}, behind := g.txLevel));
      var w := z.(cr := z.cr - {Msms}, behind := z.level);
      AskedIs(State(t.d, g), z, v, w);
      PushIs(v, w, data);
      Overlaid(s, v, y, Push(w, data), data, w);
    } else {
      GivenUp(s, t, y);
    }
  }

  lemma WaitedIs(t: State, y: TxIo)
    requires TxView(t) == y && PollOk(t.h)
    ensures TxView(State(t.d, Poll(t.h))) == Waited(y)
  {
  }

  lemma AskedIs(u: State, z: TxIo, v: State, w: TxIo)
    requires TxView(u) == z && w == z.(cr := z.cr - {Msms}, behind := z.level)
    requires v == State(u.d, u.h.(cr := u.h.cr - {Msms}, behind := u.h.txLevel))
    ensures WithTx(v, w) == v
  {
  }

  lemma Overlaid(s: State, v: State, y: TxIo, x: TxIo, data: nat, w: TxIo)
    requires v.d == s.d.(txPos := y.pos, overrun := y.overrun)
    requires v.h == s.h.(isr := v.h.isr, txLevel := v.h.txLevel, polls := v.h.polls,
                         timedOut := v.h.timedOut, cr := v.h.cr, behind := v.h.behind)
    ensures WithTx(v, x) == WithTx(s, x)
  {
  }

  lemma GivenUp(s: State, t: State, y: TxIo)
    requires t == State(s.d.(txPos := y.pos, overrun := y.overrun), s.h) && TxView(t) == y
    requires !PollOk(s.h)
    ensures WithTx(s, y.(polls := y.polls[1..], timedOut := true)) == State(t.d, Poll(s.h))
  {
  }

  lemma FillStateIs(s: State)
    ensures FillState(s) == WithTx(s, FillBytes(JobOf(s.d), TxView(s),
                                  Min(TX_FIFO_DEPTH - Tfo(s.h) - 1, TxMsg(s.d).len - s.d.txPos)))
  {
  }

  lemma TxRoundTrip(s: State)
    ensures WithTx(s, TxView(s)) == s
  {
  }

  lemma WithTxTwice(s: State, t: State, x: TxIo)
    requires t == WithTx(s, TxView(t))
    ensures WithTx(t, x) == WithTx(s, x) && TxView(WithTx(t, x)) == x
  {
  }

  lemma SameJob(s: State, t: State)
    requires t == WithTx(s, TxView(t))
    ensures JobOf(t.d) == JobOf(s.d)
  {
  }

  lemma NothingLeft(j: TxJob, x: TxIo)
    ensures FillBytes(j, x, 0) == x
  {
  }

  lemma FillByteMoves(j: TxJob, x: TxIo)
    ensures FillByte(j, x).pos == x.pos + 1
  {
  }

  lemma FillBytesFrom(j: TxJob, x: TxIo, n: int)
    requires n > 0
    ensures FillBytes(j, x, n) == (if FillGivesUp(j, x) then FillByte(j, x)
                                   else FillBytes(j, FillByte(j, x), n - 1))
  {
  }

  lemma WaitIgnoresEnables(h: Hw)
    ensures PollOk(IrqDis(h, {TxHalf, TxEmpty})) == PollOk(h)
  {
  }

  lemma ViewFields(s: State)
    requires s.d.rx.Some? && s.d.rx.value < |s.d.msgs|
    ensures var x := RxView(s);
            x.m == s.d.msgs[s.d.rx.value] && Left(x) == x.m.len - s.d.rxPos && x.cr == s.h.cr
  {
  }

  lemma OnlyCr(s: State, t: State)
    requires s.d.rx.Some? && s.d.rx.value < |s.d.msgs|
    requires t == State(s.d, s.h.(cr := t.h.cr))
    ensures t == WithRx(s, RxView(t)) && RxView(t) == RxView(s).(cr := t.h.cr)
  {
  }

  lemma StandardCases(x: RxIo, last: bool)
    requires !x.m.recvLen
    ensures var avail := Available(x);
            var rem := Left(x) - avail;
            ReadStandard(x, last)
            == if rem > RX_FIFO_DEPTH then ReadBytes(x, avail)
               else if rem > 1 then ReadBytes(x, rem - 1)
               else if rem == 1 then ReadBytes(x.(cr := x.cr + {NoAck}), 1)
               else ReadBytes(x.(cr := (if last then x.cr - {Msms} else x.cr) - {NoAck}), avail)
  {
    hide ReadBytes, Available, Left;
  }

  lemma ViewRoundTrip(s: State)
    requires s.d.rx.Some? && s.d.rx.value < |s.d.msgs|
    ensures WithRx(s, RxView(s)) == s
  {
  }

  lemma WithRxTwice(s: State, t: State, x: RxIo)
    requires s.d.rx.Some? && s.d.rx.value < |s.d.msgs|
    requires t == WithRx(s, RxView(t))
    ensures WithRx(t, x) == WithRx(s, x) && RxView(WithRx(t, x)) == x
  {
  }
}
