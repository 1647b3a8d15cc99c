/** The message cursor. What holds of tx_msg, rx_msg, nmsgs and the transmit
    interrupts in every state that a started transfer can reach, with no
    assumption on the controller's interrupts, its FIFOs or its time-outs. */
module XiicCursor {
  import opened Wrappers
  import opened XiicDevice
  import opened XiicSpec

  /** A non-null tx_msg is message num - nmsgs; rx_msg is null or equal to it; and
      complete() has run at most once, after which both pointers are null. */
  predicate CursorOf(d: Drv) {
    && |d.msgs| == |d.sent|
    && (forall j :: 0 <= j < |d.msgs| ==> d.msgs[j].rd == d.sent[j].rd)
    && d.completed <= 1
    && (d.completed == 1 ==> d.tx.None?)
    && (d.tx.None? ==> d.rx.None? && d.nmsgs == 0)
    && (d.tx.Some? ==>
          && !d.warned
          && 1 <= d.nmsgs <= |d.msgs|
          && d.tx.value == |d.msgs| - d.nmsgs
          && (d.rx.None? || d.rx == d.tx)
          && (d.rx.Some? ==> TxMsg(d).rd))
  }

  /** And the transmit interrupts are off whenever the current message is a read. */
  predicate Cursor(s: State) {
    && CursorOf(s.d)
    && (s.d.tx.Some? && TxMsg(s.d).rd ==> TxEmpty !in s.h.ier && TxHalf !in s.h.ier)
  }

  // ----- What reading and starting leave alone -----

  lemma {:induction false} ReadBytesKeepDirection(x: RxIo, n: int)
    ensures ReadBytes(x, n).m.rd == x.m.rd
    decreases n
  {
    if n > 0 {
      ReadBytesKeepDirection(ReadByte(x), n - 1);
    }
  }

  lemma BlockSetupKeepsDirection(x: RxIo)
    ensures BlockReadSetup(x).m.rd == x.m.rd
  {
  }

  lemma ReadRxKeepsDirection(x: RxIo, dynamic: bool, last: bool)
    ensures ReadRx(x, dynamic, last).m.rd == x.m.rd
  {
    var avail := Available(x);
    var rem := Left(x) - avail;
    if dynamic {
      ReadBytesKeepDirection(x, avail);
    } else if x.m.recvLen {
      BlockSetupKeepsDirection(x);
    } else if rem > 16 {
      ReadBytesKeepDirection(x, avail);
    } else if rem > 1 {
      ReadBytesKeepDirection(x, rem - 1);
    } else if rem == 1 {
      ReadBytesKeepDirection(x.(cr := x.cr + {NoAck}), 1);
    } else {
      ReadBytesKeepDirection(x.(cr := (if last then x.cr - {Msms} else x.cr) - {NoAck}), avail);
    }
  }

  /** What StartNext may change in the driver: never the messages or the cursor. */
  predicate SameCursor(a: Drv, b: Drv) {
    && a.sent == b.sent && a.msgs == b.msgs && a.tx == b.tx && a.nmsgs == b.nmsgs
    && a.completed == b.completed && a.warned == b.warned && a.dynamic == b.dynamic
    && a.blockRead == b.blockRead
  }

  lemma RecvFrame(s: State)
    ensures SameCursor(s.d, StartRecv(s).d)
    ensures StartRecv(s).d.status == s.d.status && StartRecv(s).d.rx == s.d.tx
  {
    hide RecvDynamicHw, RecvStandardHw, IrqClrEn, IrqDis, Poll, PollOk;
  }

  lemma ClrEnFields(h: Hw, mask: set<Irq>)
    ensures var r := IrqClrEn(h, mask);
            r == h.(isr := h.isr - mask, ier := h.ier + mask)
  {
    assert WriteIisr(h, h.isr * mask).isr == h.isr - mask;
  }

  lemma DrainFrame(h: Hw)
    ensures var r := DrainRx(h);
            && r == h.(rxFifo := r.rxFifo, drains := r.drains)
            && (DrainOk(h) ==> r.rxFifo == [])
            && (h.rxFifo == [] ==> r == h) && (h.drains == [] ==> r.drains == [])
  {
  }

  /** What a reinitialisation leaves, and what it does if it succeeds. */
  lemma ReinitFrame(h: Hw, clkOk: bool)
    ensures var r := ReinitHw(h, clkOk);
            && r == h.(isr := r.isr, ier := r.ier, cr := r.cr, rfd := r.rfd, rxFifo := r.rxFifo,
                       txLevel := 0, bus := Idle, drains := r.drains)
            && r.isr <= h.isr && (clkOk ==> r.cr == {Enable})
            && (ReinitRet(h, clkOk).Ok? ==>
                  r.rxFifo == [] && ArbLost !in r.isr)
            && r.ier == Reset(h).ier + (if ReinitRet(h, clkOk).Ok? then {ArbLost} else {})
            && (h.drains == [] || h.rxFifo == [] ==> r.drains == h.drains)
  {
    hide IrqClrEn, DrainRx;
    var g := Reset(h).(rfd := 15, cr := {Enable});
    DrainFrame(g);
    ClrEnFields(DrainRx(g), {ArbLost});
  }

  lemma RequestFrame(h: Hw, m: Msg, last: bool)
    ensures var r := RequestRead(h, m, last);
            r == h.(rfd := r.rfd, dtr := r.dtr, txLevel := r.txLevel, overflow := r.overflow,
                    bus := r.bus, stray := r.stray)
  {
    hide OrBit, AddrByte;
  }

  lemma PlanFrame(h: Hw, m: Msg)
    ensures var r := PlanRead(h, m); r == h.(cr := r.cr, rfd := r.rfd)
  {
    hide FirstCr, FirstRfd;
  }

  lemma AddressFrame(h: Hw, m: Msg, cr: set<CrBit>)
    ensures var r := AddressRead(h, m, cr);
            r == h.(cr := r.cr, dtr := r.dtr, txLevel := r.txLevel, overflow := r.overflow,
                    bus := r.bus, stray := r.stray)
  {
    hide AddrByte;
  }

  /** What the start of a read does to the controller, interrupt bits included. */
  lemma RecvHwFrame(h: Hw, m: Msg, last: bool)
    ensures var r := RecvStandardHw(h, m);
            r == h.(isr := h.isr - {RxFull, TxError}, ier := h.ier + {RxFull, TxError},
                    rfd := r.rfd, cr := r.cr, dtr := r.dtr,
                    txLevel := r.txLevel, overflow := r.overflow, bus := r.bus, stray := r.stray)
    ensures var r := RecvDynamicHw(h, m, last);
            r == h.(isr := h.isr - {RxFull, TxError, Bnb}, ier := h.ier + {RxFull, TxError, Bnb},
                    rfd := r.rfd, dtr := r.dtr,
                    txLevel := r.txLevel, overflow := r.overflow, bus := r.bus, stray := r.stray)
  {
    hide RequestRead, PlanRead, AddressRead, IrqClrEn, FirstCr;
    var mask := {RxFull, TxError};
    ClrEnFields(h, mask);
    var h1 := IrqClrEn(h, mask);
    RequestFrame(h1, m, last);
    ClrEnFields(RequestRead(h1, m, last), {Bnb});
    assert h.isr - mask - {Bnb} == h.isr - {RxFull, TxError, Bnb};
    assert h.ier + mask + {Bnb} == h.ier + {RxFull, TxError, Bnb};
    PlanFrame(h, m);
    ClrEnFields(PlanRead(h, m), mask);
    AddressFrame(IrqClrEn(PlanRead(h, m), mask), m, FirstCr(h.cr, m));
  }

  lemma RecvStartedFrame(d: Drv, h: Hw)
    ensures var r := RecvStarted(d, h).h; r == h.(isr := r.isr, ier := r.ier)
  {
  }

  lemma RecvKeepsLogs(s: State)
    ensures StartRecv(s).h.logs == s.h.logs
  {
    hide RecvDynamicHw, RecvStandardHw, RecvStarted, Poll, PollOk;
    var h, m, last := IrqDis(s.h, {TxHalf, TxEmpty}), TxMsg(s.d), s.d.nmsgs == 1;
    PollFrame(h);
    RecvHwFrame(h, m, last);
    RecvHwFrame(Poll(h), m, last);
    RecvStartedFrame(s.d, RecvDynamicHw(h, m, last));
    RecvStartedFrame(s.d, RecvStandardHw(h, m));
    RecvStartedFrame(s.d, RecvStandardHw(Poll(h), m));
  }

  lemma PollFrame(h: Hw)
    ensures var r := Poll(h);
            r == h.(isr := r.isr, txLevel := r.txLevel, polls := r.polls, timedOut := r.timedOut)
  {
  }

  /** Filling touches these fields only. */
  lemma FillFrame(s: State)
    ensures var r := FillState(s);
            && r.d == s.d.(txPos := r.d.txPos, overrun := r.d.overrun)
            && r.h == s.h.(dtr := r.h.dtr, cr := r.h.cr, isr := r.h.isr, txLevel := r.h.txLevel,
                           behind := r.h.behind, polls := r.h.polls, timedOut := r.h.timedOut,
                           overflow := r.h.overflow)
  {
    hide FillTx;
  }

  lemma SendHwFrame(h: Hw, m: Msg, last: bool, wasMaster: bool)
    ensures var r := SendStandardHw(h, m);
            r == h.(cr := r.cr, dtr := r.dtr, txLevel := r.txLevel, overflow := r.overflow)
    ensures var r := SendStandardEndHw(h, wasMaster);
            r == h.(isr := r.isr, ier := r.ier, cr := r.cr)
            && r.ier == h.ier + {TxEmpty, TxError, Bnb}
    ensures var r := SendDynamicHw(h, m, last);
            r == h.(isr := r.isr, ier := r.ier, dtr := r.dtr, txLevel := r.txLevel,
                    overflow := r.overflow)
  {
  }

  lemma SendFrame(s: State)
    ensures SameCursor(s.d, StartSend(s).d)
    ensures StartSend(s).d.status == s.d.status && StartSend(s).d.rx == s.d.rx
    ensures StartSend(s).h.logs == s.h.logs
  {
    hide FillState, SendDynamicHw, SendStandardHw, SendStandardEndHw, Poll, PollOk;
    var m, last := TxMsg(s.d), s.d.nmsgs == 1;
    var h := AfterWait(s);
    var t := State(s.d, SendStandardHw(h, m));
    PollFrame(s.h);
    SendHwFrame(s.h, m, last, false);
    SendHwFrame(h, m, last, false);
    FillFrame(State(s.d, SendDynamicHw(s.h, m, last)));
    FillFrame(t);
    SendHwFrame(FillState(t).h, m, last, Msms in h.cr);
  }

  lemma StartNextFrame(s: State)
    ensures SameCursor(s.d, StartNext(s).d)
    ensures s.d.tx.Some? ==> StartNext(s).d.status == Start
    ensures s.d.tx.Some? ==> StartNext(s).d.rx == (if TxMsg(s.d).rd then s.d.tx else s.d.rx)
    ensures s.d.tx.Some? ==> StartNext(s).h.logs == s.h.logs + [ReadLog([], [])]
  {
    hide StartRecv, StartSend;
    RecvFrame(Opened(s));
    RecvKeepsLogs(Opened(s));
    SendFrame(Opened(s));
  }

  lemma StartNextDisablesTx(s: State)
    requires s.d.tx.Some? && TxMsg(s.d).rd
    ensures TxEmpty !in StartNext(s).h.ier && TxHalf !in StartNext(s).h.ier
  {
    hide StartSend, RecvDynamicHw, RecvStandardHw, IrqClrEn, Poll, PollOk;
    var t, m, last := Opened(s), TxMsg(s.d), s.d.nmsgs == 1;
    var h0 := IrqDis(t.h, {TxHalf, TxEmpty});
    PollFrame(h0);
    RecvHwFrame(h0, m, last);
    RecvHwFrame(Poll(h0), m, last);
    ClrEnFields(RecvDynamicHw(h0, m, last), {Bnb});
    ClrEnFields(RecvStandardHw(h0, m), {Bnb});
    ClrEnFields(RecvStandardHw(Poll(h0), m), {Bnb});
  }

  // ----- The cursor is kept by every step -----

  lemma StartNextKeepsCursor(s: State)
    requires CursorOf(s.d) && s.d.rx.None?
    ensures Cursor(StartNext(s))
  {
    if s.d.tx.Some? {
      StartNextFrame(s);
      if TxMsg(s.d).rd {
        StartNextDisablesTx(s);
      }
    }
  }

  /** What a pass has done to the cursor when the read branch is left: either
      nothing, or it has ended a read that was not the last message. */
  lemma RxPartKeepsCursor(s: State, pend: set<Irq>, clr: set<Irq>)
    requires CursorOf(s.d)
    ensures var p := RxPart(s, pend, clr);
            && CursorOf(p.s.d)
            && p.s.h.ier == s.h.ier
            && p.s.d.completed == s.d.completed
            && p.s.d.warned == s.d.warned
            && p.s.d.sent == s.d.sent && p.s.d.dynamic == s.d.dynamic
            && p.wake.None?
            && (p.more ==> && s.d.rx.Some? && p.s.d.rx.None? && s.d.nmsgs > 1
                           && p.s.d.nmsgs == s.d.nmsgs - 1 && p.s.d.tx == Some(s.d.tx.value + 1))
            && (!p.more ==> && p.s.d.nmsgs == s.d.nmsgs && p.s.d.tx == s.d.tx
                            && (s.d.rx.None? ==> p.s.d == s.d)
                            && SameRd(p.s.d.msgs, s.d.msgs))
  {
    hide ReadRx, TrimLen, DrainRx, Left, WithRx, RxView;
    DrainFrame(s.h);
    if RxFull in pend && s.d.rx.Some? {
      var x := ReadRx(RxView(s), s.d.dynamic, s.d.nmsgs == 1);
      ReadRxKeepsDirection(RxView(s), s.d.dynamic, s.d.nmsgs == 1);
      ReadKeepsFields(s, x);
      ReadKeepsFields(s, TrimLen(x));
      TrimKeepsDirection(x);
    }
  }

  /** What has been read goes into the message being read, and nowhere else. */
  lemma ReadKeepsFields(s: State, x: RxIo)
    requires CursorOf(s.d) && s.d.rx.Some?
    ensures var t, i := WithRx(s, x), s.d.rx.value;
            && t.d == s.d.(msgs := t.d.msgs, rxPos := x.pos, blockRead := x.blockRead,
                           actualLen := x.actualLen, overrun := x.overrun)
            && t.h == s.h.(rxFifo := x.fifo, cr := x.cr, rfd := x.rfd, underflow := x.underflow)
            && i < |s.d.msgs| && t.d.msgs == s.d.msgs[i := x.m] && RxView(s).m == s.d.msgs[i]
            && s.d.msgs[i].rd
  {
  }

  lemma TrimKeepsDirection(x: RxIo)
    ensures TrimLen(x).m.rd == x.m.rd
  {
  }

  predicate SameRd(a: seq<Msg>, b: seq<Msg>) {
    |a| == |b| && forall j :: 0 <= j < |a| ==> a[j].rd == b[j].rd
  }

  lemma TxPartKeepsCursor(p: Pass, pend: set<Irq>)
    requires CursorOf(p.s.d)
    requires p.more || p.s.d.rx.Some? ==> pend * {TxEmpty, TxHalf} == {}
    ensures var q := TxPart(p, pend);
            && CursorOf(q.s.d)
            && q.s.h.ier <= p.s.h.ier
            && q.s.d.completed == p.s.d.completed && q.s.d.warned == p.s.d.warned
            && q.s.d.rx == p.s.d.rx && q.wake == p.wake && q.s.d.msgs == p.s.d.msgs
            && q.s.d.sent == p.s.d.sent && q.s.d.dynamic == p.s.d.dynamic
            && (p.more ==> q == p)
            && (q.more && !p.more ==>
                  && p.s.d.tx.Some? && p.s.d.nmsgs > 1 && p.s.d.rx.None?
                  && q.s.d.nmsgs == p.s.d.nmsgs - 1 && q.s.d.tx == Some(p.s.d.tx.value + 1))
            && (!q.more ==> q.s.d.nmsgs == p.s.d.nmsgs && q.s.d.tx == p.s.d.tx)
  {
  }

  lemma BnbPartKeepsCursor(p: Pass, pend: set<Irq>)
    requires CursorOf(p.s.d) && p.wake.None?
    ensures var q := BnbPart(p, pend);
            && CursorOf(q.s.d)
            && q.s.h.ier <= p.s.h.ier
            && q.s.d.completed == p.s.d.completed && q.s.d.warned == p.s.d.warned
            && q.s.d.rx == p.s.d.rx && q.s.d.tx == p.s.d.tx && q.s.d.nmsgs == p.s.d.nmsgs
            && q.s.d.msgs == p.s.d.msgs && q.more == p.more
            && q.s.d.sent == p.s.d.sent && q.s.d.dynamic == p.s.d.dynamic
            && (q.wake.Some? ==> p.s.d.tx.Some?)
            && (q.wake == Some(Done) ==> q.s.d.nmsgs == 1)
  {
  }

  /** The cursor at the label "out". */
  predicate PassCursor(s: State, p: Pass) {
    && CursorOf(p.s.d)
    && p.s.d.sent == s.d.sent && p.s.d.dynamic == s.d.dynamic
    && p.s.h.ier <= s.h.ier
    && p.s.d.completed == s.d.completed && p.s.d.warned == s.d.warned
    && (p.more ==> && s.d.tx.Some? && s.d.nmsgs > 1 && p.s.d.rx.None?
                   && p.s.d.nmsgs == s.d.nmsgs - 1 && p.s.d.tx == Some(s.d.tx.value + 1))
    && (!p.more ==> && p.s.d.nmsgs == s.d.nmsgs && p.s.d.tx == s.d.tx
                    && SameRd(p.s.d.msgs, s.d.msgs))
    && (p.wake.Some? ==> s.d.tx.Some?)
    && (p.wake == Some(Done) ==> p.s.d.nmsgs == 1)
  }

  lemma BranchesKeepCursor(s: State, pend: set<Irq>, clr: set<Irq>)
    requires CursorOf(s.d)
    requires s.d.rx.Some? ==> pend * {TxEmpty, TxHalf} == {}
    ensures PassCursor(s, Branches(s, pend, clr))
  {
    RxPartKeepsCursor(s, pend, clr);
    var p1 := RxPart(s, pend, clr);
    TxPartKeepsCursor(p1, pend);
    BnbPartKeepsCursor(TxPart(p1, pend), pend);
  }

  /** No transmit interrupt is pending during a read. */
  predicate TxQuiet(s: State) {
    s.d.rx.Some? ==> Pend(s.h) * {TxEmpty, TxHalf} == {}
  }

  /** At most one message is consumed in a pass, and only if it is not the last. */
  lemma PassKeepsCursor(s: State, clkOk: bool)
    requires CursorOf(s.d) && TxQuiet(s)
    ensures ProcessPass(s, clkOk).wake.Some? || ProcessPass(s, clkOk).s.h.ier <= s.h.ier
         || s.d.tx.None?
    ensures var p := ProcessPass(s, clkOk);
            PassCursor(s, p.(s := p.s.(h := s.h)))
  {
    var pend := Pend(s.h);
    if !IsErrorPend(pend) {
      BranchesKeepCursor(s, pend, {});
    } else if EarlyRxDone(s, pend) {
      assert (pend + {RxFull}) * {TxEmpty, TxHalf} == {};
      BranchesKeepCursor(s, pend + {RxFull}, {TxError});
    }
  }

  lemma CursorIsQuiet(s: State)
    requires Cursor(s)
    ensures CursorOf(s.d) && TxQuiet(s)
  {
  }

  /** Even after a start whose reinitialisation failed the handler keeps the fields in order. */
  lemma ProcessKeepsFields(s: State, clkOk: bool)
    requires CursorOf(s.d) && TxQuiet(s)
    ensures CursorOf(Process(s, clkOk).d)
  {
    hide ProcessPass, StartNext, NoRxFullBit;
    PassKeepsCursor(s, clkOk);
    var p := ProcessPass(s, clkOk);
    var s1 := State(p.s.d, WriteIisr(p.s.h, ClearWord(p, NoRxFullBit(s))));
    if p.more {
      StartNextKeepsCursor(s1);
      StartNextFrame(s1);
    }
  }

  /** One run of the interrupt handler, whatever is pending. */
  lemma ProcessKeepsCursor(s: State, clkOk: bool)
    requires Cursor(s)
    ensures Cursor(Process(s, clkOk))
    ensures var r := Process(s, clkOk); r.d.sent == s.d.sent && r.d.dynamic == s.d.dynamic
  {
    hide ProcessPass, Finish, NoRxFullBit;
    var p := ProcessPass(s, clkOk);
    CursorIsQuiet(s);
    PassKeepsCursor(s, clkOk);
    FinishKeepsCursor(s, p, NoRxFullBit(s));
  }

  lemma FinishKeepsCursor(s: State, p: Pass, noRxFull: bool)
    requires Cursor(s)
    requires PassCursor(s, p.(s := p.s.(h := s.h)))
    requires p.wake.Some? || p.s.h.ier <= s.h.ier || s.d.tx.None?
    ensures Cursor(Finish(p, noRxFull))
    ensures var r := Finish(p, noRxFull); r.d.sent == s.d.sent && r.d.dynamic == s.d.dynamic
  {
    var s1 := State(p.s.d, WriteIisr(p.s.h, ClearWord(p, noRxFull)));
    if p.more {
      StartNextKeepsCursor(s1);
      StartNextFrame(s1);
    }
  }

  lemma StepKeepsCursor(s: State, e: Event, clkOk: bool)
    requires Cursor(s)
    ensures Cursor(Step(s, e, clkOk))
    ensures var r := Step(s, e, clkOk); r.d.sent == s.d.sent && r.d.dynamic == s.d.dynamic
  {
    if e.Interrupt? {
      ProcessKeepsCursor(s, clkOk);
    }
  }

  /** Every state of every run has its cursor in order. */
  lemma {:induction false} RunKeepsCursor(s: State, events: seq<Event>, clkOk: bool)
    requires Cursor(s)
    ensures Cursor(Run(s, events, clkOk))
    ensures var r := Run(s, events, clkOk); r.d.sent == s.d.sent && r.d.dynamic == s.d.dynamic
    decreases |events|
  {
    if events != [] {
      StepKeepsCursor(s, events[0], clkOk);
      RunKeepsCursor(Step(s, events[0], clkOk), events[1..], clkOk);
    }
  }

  /** A start that is not refused puts the cursor on the first message. */
  lemma StartXferSetsCursor(s: State, msgs: seq<Msg>, c: Config, stuck: (bool, bool))
    requires msgs != [] && StartXferRet(s, c, stuck).Ok?
    ensures var r := StartXfer(s, msgs, c, stuck);
            && Cursor(r) && r.d.tx == Some(0) && r.d.nmsgs == |msgs| && r.d.completed == 0
            && r.d.sent == msgs && r.d.dynamic == UsesDynamic(msgs, c.readBroken)
  {
    var h1 := FreedHw(s.h, c, stuck);
    var s2 := State(Submit(s.d, msgs, c.readBroken), ReinitHw(ClearHistory(h1), c.clkOk));
    StartNextKeepsCursor(s2);
    StartNextFrame(s2);
  }

  /** On a controller whose dynamic reads are broken no transfer in dynamic mode ever starts
      a read, whatever its messages and its run. */
  lemma BrokenReadsAvoidDynamic(s: State, msgs: seq<Msg>, c: Config, stuck: (bool, bool),
                                events: seq<Event>)
    requires msgs != [] && StartXferRet(s, c, stuck).Ok? && c.readBroken
    ensures var r := Run(StartXfer(s, msgs, c, stuck), events, c.clkOk);
            r.d.dynamic ==> r.d.rx.None? && !TxMsg(r.d).rd
  {
    hide Run, StartXfer;
    StartXferSetsCursor(s, msgs, c, stuck);
    RunKeepsCursor(StartXfer(s, msgs, c, stuck), events, c.clkOk);
    var r := Run(StartXfer(s, msgs, c, stuck), events, c.clkOk);
    if r.d.dynamic && r.d.tx.Some? {
      assert !ForcesStandard(msgs[r.d.tx.value], true);
    }
  }

  /** The bus of other masters is respected: an adapter that shares it starts nothing as long
      as it is busy, and neither the driver nor what it has written changes, but for a reset of
      the controller. An adapter that has the bus for itself does not even look. */
  lemma SharedBusIsRespected(s: State, msgs: seq<Msg>, c: Config, stuck: (bool, bool))
    requires msgs != []
    ensures !c.singlemaster && stuck.0 && stuck.1 ==>
              !StartXferRet(s, c, stuck).Ok? && StartXfer(s, msgs, c, stuck).d == s.d
              && StartXfer(s, msgs, c, stuck).h.dtr == s.h.dtr
    ensures !c.singlemaster && stuck.0 && stuck.1 && s.d.tx.None? && s.d.rx.None? ==>
              var ret, r := StartXferRet(s, c, stuck), StartXfer(s, msgs, c, stuck).h;
              && ret == (if !c.clkOk then EInval else if !DrainOk(Reset(s.h)) then ETimedOut else EBusy)
              && (c.clkOk ==> r.cr == {Enable}) && r.bus == XiicDevice.Idle && r.txLevel == 0
    ensures c.singlemaster || !stuck.0 ==>
              && StartXferRet(s, c, stuck) == StartXferRet(s, c.(singlemaster := true), (false, false))
              && StartXfer(s, msgs, c, stuck)
                 == StartXfer(s, msgs, c.(singlemaster := true), (false, false))
  {
    hide ReinitHw, StartNext;
    ReinitFrame(s.h, c.clkOk);
  }

  // ----- TX_HALF in standard mode -----

  /** One of the messages 0 .. i is a read. */
  predicate ReadUpTo(sent: seq<Msg>, i: int) {
    exists j :: 0 <= j <= i && j < |sent| && sent[j].rd
  }

  /** A standard-mode list has a read, and from the first read on TX_HALF is off;
      an earlier transfer may have left it on. */
  predicate HalfOff(s: State) {
    !s.d.dynamic && s.d.tx.Some? ==>
      && ReadUpTo(s.d.sent, |s.d.sent| - 1)
      && (ReadUpTo(s.d.sent, s.d.tx.value) ==> TxHalf !in s.h.ier)
  }

  lemma LastHasHalfOff(s: State)
    requires Cursor(s) && HalfOff(s) && !s.d.dynamic && s.d.nmsgs == 1
    ensures TxHalf !in s.h.ier
  {
  }

  lemma SendLeavesHalf(s: State)
    requires !s.d.dynamic && TxHalf !in s.h.ier
    ensures TxHalf !in StartSend(s).h.ier
  {
    hide FillState, SendStandardHw, SendStandardEndHw, Poll, PollOk;
    var h, m := AfterWait(s), TxMsg(s.d);
    var t := State(s.d, SendStandardHw(h, m));
    PollFrame(s.h);
    SendHwFrame(h, m, false, false);
    FillFrame(t);
    SendHwFrame(FillState(t).h, m, false, Msms in h.cr);
  }

  lemma StartLeavesHalf(s: State)
    requires s.d.tx.Some? && !s.d.dynamic
    ensures TxMsg(s.d).rd || TxHalf !in s.h.ier ==> TxHalf !in StartNext(s).h.ier
  {
    hide StartSend, StartRecv;
    if TxMsg(s.d).rd {
      StartNextDisablesTx(s);
    } else if TxHalf !in s.h.ier {
      SendLeavesHalf(Opened(s));
    }
  }

  lemma ProcessKeepsHalfOff(s: State, clkOk: bool)
    requires Cursor(s) && HalfOff(s)
    ensures HalfOff(Process(s, clkOk))
  {
    hide ProcessPass, StartNext, NoRxFullBit;
    PassKeepsCursor(s, clkOk);
    var p := ProcessPass(s, clkOk);
    var s1 := State(p.s.d, WriteIisr(p.s.h, ClearWord(p, NoRxFullBit(s))));
    StartNextFrame(s1);
    if p.more && !s.d.dynamic && p.wake.None? {
      StartLeavesHalf(s1);
      NextRead(s1.d, s.d.sent, s.d.tx.value);
    }
  }

  lemma NextRead(d: Drv, sent: seq<Msg>, i: nat)
    requires CursorOf(d) && d.sent == sent && d.tx == Some(i + 1)
    ensures ReadUpTo(sent, i + 1) ==> TxMsg(d).rd || ReadUpTo(sent, i)
  {
  }

  lemma StepKeepsHalfOff(s: State, e: Event, clkOk: bool)
    requires Cursor(s) && HalfOff(s)
    ensures HalfOff(Step(s, e, clkOk))
  {
    if e.Interrupt? {
      ProcessKeepsHalfOff(s, clkOk);
    }
  }

  /** A started standard-mode list has a read, if block reads are reads. */
  lemma StandardHasRead(msgs: seq<Msg>, readBroken: bool)
    requires !UsesDynamic(msgs, readBroken)
    requires forall i :: 0 <= i < |msgs| && msgs[i].recvLen ==> msgs[i].rd
    ensures ReadUpTo(msgs, |msgs| - 1)
  {
    var i :| 0 <= i < |msgs| && ForcesStandard(msgs[i], readBroken);
    assert msgs[i].rd;
  }

  lemma StartXferSetsHalfOff(s: State, msgs: seq<Msg>, c: Config, stuck: (bool, bool))
    requires msgs != [] && StartXferRet(s, c, stuck).Ok?
    requires forall i :: 0 <= i < |msgs| && msgs[i].recvLen ==> msgs[i].rd
    ensures HalfOff(StartXfer(s, msgs, c, stuck))
  {
    hide StartNext, ReinitHw, ClearHistory;
    var h1 := FreedHw(s.h, c, stuck);
    var s2 := State(Submit(s.d, msgs, c.readBroken), ReinitHw(ClearHistory(h1), c.clkOk));
    StartNextFrame(s2);
    if !s2.d.dynamic {
      StandardHasRead(msgs, c.readBroken);
      StartLeavesHalf(s2);
    }
  }

  // ----- One interrupt, one message; one start, one completion -----

  /** A single interrupt moves the cursor by at most one message, and never past the end. */
  lemma OneMessagePerInterrupt(s: State, clkOk: bool)
    requires Cursor(s) && s.d.tx.Some?
    ensures var r := Process(s, clkOk);
            r.d.tx.Some? ==> && r.d.tx.value < |s.d.msgs|
                             && s.d.tx.value <= r.d.tx.value <= s.d.tx.value + 1
  {
    ProcessKeepsCursor(s, clkOk);
    PassKeepsCursor(s, clkOk);
    var p := ProcessPass(s, clkOk);
    var s1 := State(p.s.d, WriteIisr(p.s.h, ClearWord(p, NoRxFullBit(s))));
    StartNextFrame(s1);
  }

  /** Between two starts complete() runs at most once, whatever the run; and once
      it has run, tx_msg, rx_msg and nmsgs are clear. */
  lemma OneWakeupPerStart(s: State, msgs: seq<Msg>, c: Config, stuck: (bool, bool),
                          events: seq<Event>)
    requires msgs != [] && StartXferRet(s, c, stuck).Ok?
    ensures var r := Run(StartXfer(s, msgs, c, stuck), events, c.clkOk);
            && r.d.completed <= 1
            && (r.d.completed == 1 ==> r.d.tx.None? && r.d.rx.None? && r.d.nmsgs == 0)
  {
    StartXferSetsCursor(s, msgs, c, stuck);
    RunKeepsCursor(StartXfer(s, msgs, c, stuck), events, c.clkOk);
  }
}
