/** Bus errors. In every run the error interrupts stay enabled while a transfer is
    under way, and either of them ends it in Error with the controller reset. */
module XiicErrors {
  import opened XiicDevice
  import opened XiicSpec
  import opened XiicCursor

  const ERRORS: set<Irq> := {ArbLost, TxError}

  predicate ErrorsOn(s: State) {
    s.d.tx.Some? ==> ERRORS <= s.h.ier
  }

  // ----- Nothing turns them off -----

  /** A start that waits has been through another that enabled both. */
  lemma RecvErrors(s: State)
    requires s.d.prevTx ==> ERRORS <= s.h.ier
    requires ArbLost in s.h.ier
    ensures ERRORS <= StartRecv(s).h.ier
  {
    hide RecvDynamicHw, RecvStandardHw, IrqClrEn, Poll, PollOk;
    var h, m, last := IrqDis(s.h, {TxHalf, TxEmpty}), TxMsg(s.d), s.d.nmsgs == 1;
    PollFrame(h);
    RecvHwFrame(h, m, last);
    RecvHwFrame(Poll(h), m, last);
    ClrEnFields(RecvDynamicHw(h, m, last), {Bnb});
    ClrEnFields(RecvStandardHw(h, m), {Bnb});
    ClrEnFields(RecvStandardHw(Poll(h), m), {Bnb});
  }

  lemma SendHwErrors(h: Hw, m: Msg, last: bool, wasMaster: bool)
    requires ArbLost in h.ier
    ensures ERRORS <= SendDynamicHw(h, m, last).ier && ERRORS <= SendStandardEndHw(h, wasMaster).ier
    ensures SendStandardHw(h, m).ier == h.ier
  {
  }

  lemma SendErrors(s: State)
    requires s.d.prevTx ==> ERRORS <= s.h.ier
    requires ArbLost in s.h.ier
    ensures ERRORS <= StartSend(s).h.ier
  {
    hide FillState, SendDynamicHw, SendStandardHw, SendStandardEndHw, Poll, PollOk;
    var m, last := TxMsg(s.d), s.d.nmsgs == 1;
    var h := AfterWait(s);
    var t := State(s.d, SendStandardHw(h, m));
    PollFrame(s.h);
    SendHwErrors(s.h, m, last, false);
    SendHwErrors(h, m, last, false);
    FillFrame(State(s.d, SendDynamicHw(s.h, m, last)));
    FillFrame(t);
    SendHwErrors(FillState(t).h, m, last, Msms in h.cr);
  }

  lemma StartErrors(s: State)
    requires ArbLost in s.h.ier && (s.d.prevTx ==> ERRORS <= s.h.ier)
    ensures s.d.tx.Some? ==> ERRORS <= StartNext(s).h.ier
  {
    hide StartRecv, StartSend;
    if s.d.tx.Some? {
      if TxMsg(s.d).rd { RecvErrors(Opened(s)); } else { SendErrors(Opened(s)); }
    }
  }

  lemma BranchesKeepErrors(s: State, pend: set<Irq>, clr: set<Irq>)
    requires ERRORS <= s.h.ier
    ensures ERRORS <= Branches(s, pend, clr).s.h.ier
  {
    hide RxPart, TxPart, BnbPart;
    RxKeepsErrors(s, pend, clr);
    TxKeepsErrors(RxPart(s, pend, clr), pend);
    BnbKeepsErrors(TxPart(RxPart(s, pend, clr), pend), pend);
  }

  lemma RxKeepsErrors(s: State, pend: set<Irq>, clr: set<Irq>)
    ensures RxPart(s, pend, clr).s.h.ier == s.h.ier
  {
    hide ReadRx, TrimLen;
  }

  lemma TxKeepsErrors(p: Pass, pend: set<Irq>)
    requires ERRORS <= p.s.h.ier
    ensures ERRORS <= TxPart(p, pend).s.h.ier
  {
    hide FillState;
    FillFrame(p.s);
  }

  lemma BnbKeepsErrors(p: Pass, pend: set<Irq>)
    requires ERRORS <= p.s.h.ier
    ensures ERRORS <= BnbPart(p, pend).s.h.ier
  {
  }

  lemma ProcessKeepsErrors(s: State, clkOk: bool)
    requires Cursor(s) && ErrorsOn(s)
    ensures ErrorsOn(Process(s, clkOk))
  {
    hide Branches, StartNext, Cursor, PassCursor, WriteIisr, ReinitHw;
    CursorIsQuiet(s);
    PassKeepsCursor(s, clkOk);
    ActiveStays(s, clkOk);
    if s.d.tx.Some? {
      BranchesKeepErrors(s, Pend(s.h), {});
      BranchesKeepErrors(s, Pend(s.h) + {RxFull}, {TxError});
      var p := ProcessPass(s, clkOk);
      var h := WriteIisr(p.s.h, ClearWord(p, NoRxFullBit(s)));
      IisrKeepsEnables(p.s.h, ClearWord(p, NoRxFullBit(s)));
      if p.more {
        StartErrors(State(p.s.d, h));
      }
    }
  }

  lemma IisrKeepsEnables(h: Hw, v: set<Irq>)
    ensures WriteIisr(h, v).ier == h.ier
  {
  }

  lemma ActiveStays(s: State, clkOk: bool)
    requires Cursor(s)
    ensures Process(s, clkOk).d.tx.Some? ==> s.d.tx.Some?
  {
    hide ProcessPass, StartNext;
    CursorIsQuiet(s);
    PassKeepsCursor(s, clkOk);
    StartNextFrame(State(ProcessPass(s, clkOk).s.d,
                         WriteIisr(ProcessPass(s, clkOk).s.h,
                                   ClearWord(ProcessPass(s, clkOk), NoRxFullBit(s)))));
  }

  lemma {:induction false} RunKeepsErrors(s: State, events: seq<Event>, clkOk: bool)
    requires Cursor(s) && ErrorsOn(s)
    ensures ErrorsOn(Run(s, events, clkOk))
    decreases |events|
  {
    hide Process, Cursor;
    if events != [] {
      StepKeepsCursor(s, events[0], clkOk);
      if events[0].Interrupt? {
        ProcessKeepsErrors(s, clkOk);
      }
      RunKeepsErrors(Step(s, events[0], clkOk), events[1..], clkOk);
    }
  }

  lemma StartXferErrors(s: State, msgs: seq<Msg>, c: Config, stuck: (bool, bool))
    requires msgs != [] && StartXferRet(s, c, stuck).Ok?
    ensures ErrorsOn(StartXfer(s, msgs, c, stuck))
  {
    hide StartNext;
    var h1 := FreedHw(s.h, c, stuck);
    StartErrors(State(Submit(s.d, msgs, c.readBroken), ReinitHw(ClearHistory(h1), c.clkOk)));
  }

  // ----- Main results -----

  /** The transfer has ended in Error, and the controller is as after a reset; but for
      bytes in the RX FIFO, if it is not drained in time. */
  predicate Aborted(t: State, r: State) {
    && r.d.tx.None? && r.d.rx.None? && r.d.nmsgs == 0
    && r.d.completed == 1 && r.d.status == Error && XferRet(r) == EIo
    && r.h.bus == Idle && r.h.txLevel == 0 && r.h.cr == {Enable}
    && (DrainOk(Reset(t.h)) ==> r.h.rxFifo == [] && ArbLost in r.h.ier)
  }

  lemma ErrorPassAborts(s: State, p: Pass)
    requires Cursor(s) && s.d.tx.Some? && s.d.completed == 0 && p == ErrorPass(s, true)
    ensures Aborted(s, Finish(p, false))
  {
    hide ReinitHw, DrainOk, Reset;
    ReinitFrame(s.h, true);
  }

  /** In any state of any run of any transfer: if arbitration is lost, or a transmit
      error comes with no RX_FULL pending and the rest of a read not in the FIFO, the
      next run of the handler ends the transfer in Error and resets the controller. */
  lemma ErrorsEndTransfers(s: State, msgs: seq<Msg>, c: Config, stuck: (bool, bool),
                           events: seq<Event>, error: Irq)
    requires msgs != [] && StartXferRet(s, c, stuck).Ok? && error in ERRORS
    ensures var r := Run(StartXfer(s, msgs, c, stuck), events, c.clkOk);
            var t := State(r.d, Latch(r.h, {error}));
            r.d.tx.Some? && (error == TxError ==> RxFull !in Pend(t.h) && !EarlyRxDone(t, Pend(t.h))) ==>
              Aborted(t, Process(t, c.clkOk))
  {
    hide StartXfer, Process;
    StartXferSetsCursor(s, msgs, c, stuck);
    StartXferErrors(s, msgs, c, stuck);
    RunKeepsCursor(StartXfer(s, msgs, c, stuck), events, c.clkOk);
    RunKeepsErrors(StartXfer(s, msgs, c, stuck), events, c.clkOk);
    var r := Run(StartXfer(s, msgs, c, stuck), events, c.clkOk);
    if r.d.tx.Some? {
      ErrorAborts(r, error);
    }
  }

  lemma ErrorAborts(r: State, error: Irq)
    requires Cursor(r) && ErrorsOn(r) && r.d.tx.Some? && error in ERRORS
    ensures var t := State(r.d, Latch(r.h, {error}));
            (error == TxError ==> RxFull !in Pend(t.h) && !EarlyRxDone(t, Pend(t.h))) ==>
              Aborted(t, Process(t, true))
  {
    hide Branches, Cursor, Finish, ErrorPass, Aborted;
    var t := State(r.d, Latch(r.h, {error}));
    assert error in Pend(t.h);
    CursorLatched(r, t, error);
    ErrorPassAborts(t, ErrorPass(t, true));
  }

  lemma CursorLatched(r: State, t: State, error: Irq)
    requires Cursor(r) && r.d.tx.Some? && t == State(r.d, Latch(r.h, {error}))
    ensures Cursor(t) && t.d.completed == 0
  {
  }
}
