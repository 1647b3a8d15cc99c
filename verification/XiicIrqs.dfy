/** Interrupts that have nothing more to do, or that nobody asked for: what one pass of the
    handler does about them, and how often they can come back. */
module XiicIrqs {
  import opened Wrappers
  import opened XiicDevice
  import opened XiicSpec
  import opened XiicCursor

  // ----- TX_HALF after the last byte of a message -----

  /** Message i, a write, is in the FIFO as a whole. */
  predicate WhollySent(s: State, i: nat) {
    && s.d.tx == Some(i) && s.d.rx.None?
    && i < |s.d.msgs| && s.d.txPos == s.d.msgs[i].len
  }

  /** The handler finds a transmit interrupt, and no error, nor RX_FULL that nobody wants. */
  predicate TakesTx(s: State) {
    && (TxEmpty in Pend(s.h) || TxHalf in Pend(s.h))
    && ArbLost !in Pend(s.h) && TxError !in Pend(s.h) && RxFull !in Pend(s.h)
  }

  lemma TxAlone(s: State, clkOk: bool)
    requires TakesTx(s)
    ensures ProcessPass(s, clkOk) == BnbPart(TxPart(Pass(s, {}, false, false, None), Pend(s.h)), Pend(s.h))
  {
    hide TxPart, BnbPart, ErrorPass, ReadRx;
  }

  /** A message that is wholly in the FIFO, and not left for the next one, has TX_HALF
      disabled in that pass; it is left exactly if another follows and the FIFO has run
      empty. */
  lemma SentDisablesHalf(s: State, i: nat, clkOk: bool)
    requires WhollySent(s, i) && TakesTx(s)
    ensures var r := Process(s, clkOk);
            if s.d.nmsgs > 1 && TxEmpty in Pend(s.h) then
              r.d.tx.None? || r.d.tx == Some(i + 1)
            else
              (r.d.tx.None? || r.d.tx == Some(i)) && TxHalf !in r.h.ier
  {
    hide FillState, StartNext, NoRxFullBit, ClearWord, ProcessPass;
    TxAlone(s, clkOk);
    var p := ProcessPass(s, clkOk);
    SentPass(s, i, Pend(s.h));
    StartNextFrame(State(p.s.d, WriteIisr(p.s.h, ClearWord(p, NoRxFullBit(s)))));
  }

  lemma SentPass(s: State, i: nat, pend: set<Irq>)
    requires WhollySent(s, i) && (TxEmpty in pend || TxHalf in pend)
    ensures var p := BnbPart(TxPart(Pass(s, {}, false, false, None), pend), pend);
            && p.more == (s.d.nmsgs > 1 && TxEmpty in pend)
            && p.s.d.tx == (if p.more then Some(i + 1) else Some(i))
            && (!p.more ==> TxHalf !in p.s.h.ier)
  {
    hide FillState;
    assert TxEmpty in pend * {TxEmpty, TxHalf} || TxHalf in pend * {TxEmpty, TxHalf};
  }

  /** How often TX_HALF is found pending, and served, with message i wholly in the FIFO. */
  function HalfPasses(s: State, i: nat, events: seq<Event>, clkOk: bool): nat
    decreases |events|
  {
    if events == [] then 0
    else
      (if events[0].Interrupt? && WhollySent(s, i) && TakesTx(s) && TxHalf in Pend(s.h) then 1 else 0)
      + HalfPasses(Step(s, events[0], clkOk), i, events[1..], clkOk)
  }

  /** Message i has been left, or is not waiting for TX_HALF. */
  predicate HalfOver(s: State, i: nat) {
    s.d.tx.None? || s.d.tx.value > i || (s.d.tx.value == i && TxHalf !in s.h.ier)
  }

  lemma ProcessKeepsHalfOver(s: State, i: nat, clkOk: bool)
    requires Cursor(s) && HalfOver(s, i)
    ensures HalfOver(Process(s, clkOk), i)
  {
    hide ProcessPass, StartNext, NoRxFullBit, ClearWord;
    CursorIsQuiet(s);
    PassKeepsCursor(s, clkOk);
    var p := ProcessPass(s, clkOk);
    StartNextFrame(State(p.s.d, WriteIisr(p.s.h, ClearWord(p, NoRxFullBit(s)))));
  }

  lemma {:induction false} NoMoreHalf(s: State, i: nat, events: seq<Event>, clkOk: bool)
    requires Cursor(s) && HalfOver(s, i)
    ensures HalfPasses(s, i, events, clkOk) == 0
    decreases |events|
  {
    hide Process, Cursor;
    if events != [] {
      StepKeepsCursor(s, events[0], clkOk);
      if events[0].Interrupt? {
        ProcessKeepsHalfOver(s, i, clkOk);
      }
      NoMoreHalf(Step(s, events[0], clkOk), i, events[1..], clkOk);
    }
  }

  /** So it is served at most once per message, in any run. */
  lemma {:induction false} OneHalfPass(s: State, i: nat, events: seq<Event>, clkOk: bool)
    requires Cursor(s)
    ensures HalfPasses(s, i, events, clkOk) <= 1
    decreases |events|
  {
    hide Process, Cursor, TakesTx, WhollySent, HalfOver;
    if events != [] {
      var r := Step(s, events[0], clkOk);
      StepKeepsCursor(s, events[0], clkOk);
      if events[0].Interrupt? && WhollySent(s, i) && TakesTx(s) && TxHalf in Pend(s.h) {
        SentIsOver(s, i, clkOk);
        NoMoreHalf(r, i, events[1..], clkOk);
      } else {
        OneHalfPass(r, i, events[1..], clkOk);
      }
    }
  }

  lemma SentIsOver(s: State, i: nat, clkOk: bool)
    requires WhollySent(s, i) && TakesTx(s)
    ensures HalfOver(Process(s, clkOk), i)
  {
    hide Process;
    SentDisablesHalf(s, i, clkOk);
  }

  // ----- RX_FULL without a read -----

  /** RX_FULL with no read in progress: the driver does not change, the bit is cleared, and
      the FIFO is empty if it is drained in time. */
  lemma UnexpectedRxDrains(s: State, clkOk: bool)
    requires s.d.rx.None? && RxFull in Pend(s.h) && ArbLost !in Pend(s.h)
    ensures var r := Process(s, clkOk);
            && r.d == s.d && RxFull !in r.h.isr && r.h.ier == s.h.ier
            && (DrainOk(s.h) ==> r.h.rxFifo == [])
  {
    hide FillState, StartNext, ReadRx, DrainRx;
    DrainFrame(s.h);
  }

  // ----- What a start enables -----

  /** The wait before the message, if there is one, ends in time. */
  predicate NotGivenUp(s: State) {
    s.d.dynamic || !s.d.prevTx || PollOk(s.h)
  }

  lemma PollKeepsEnables(h: Hw)
    ensures Poll(h).ier == h.ier
  {
  }

  lemma SendEnables(h: Hw, m: Msg, last: bool)
    ensures SendDynamicHw(h, m, last).ier
         == h.ier + {TxEmpty, TxError, Bnb} + if last && m.len == 0 then {} else {TxHalf}
    ensures SendStandardHw(h, m).ier == h.ier
    ensures forall wasMaster ::
              SendStandardEndHw(h, wasMaster).ier == h.ier + {TxEmpty, TxError, Bnb}
  {
    hide OrBit, AddrByte;
  }

  lemma RecvEnables(h: Hw, m: Msg, last: bool)
    ensures RecvDynamicHw(h, m, last).ier == h.ier + {RxFull, TxError, Bnb}
    ensures RecvStandardHw(h, m).ier == h.ier + {RxFull, TxError}
  {
    hide OrBit, AddrByte;
  }

  lemma StartedEnables(d: Drv, h: Hw)
    ensures var r := RecvStarted(d, h);
            && r.d.rx == d.tx && r.d.actualLen == 0
            && r.h.ier == h.ier + if d.nmsgs == 1 then {Bnb} else {}
  {
    assert h.ier + {} == h.ier;
  }

  /** A write that is started can go on, fail and end; TX_HALF comes in dynamic mode only,
      and not for an empty last message. */
  lemma WriteEnables(s: State)
    requires s.d.tx.Some? && !TxMsg(s.d).rd && NotGivenUp(s)
    ensures var r := StartNext(s);
            && TxEmpty in r.h.ier && TxError in r.h.ier && Bnb in r.h.ier
            && (RxFull in r.h.ier <==> RxFull in s.h.ier)
            && (TxHalf in r.h.ier <==>
                  TxHalf in s.h.ier || (s.d.dynamic && (s.d.nmsgs != 1 || TxMsg(s.d).len != 0)))
  {
    hide FillTx, Poll, SendDynamicHw, SendStandardHw, SendStandardEndHw;
    var o := Opened(s);
    var m, h0 := TxMsg(o.d), AfterWait(o);
    PollKeepsEnables(o.h);
    SendEnables(o.h, m, o.d.nmsgs == 1);
    SendEnables(h0, m, false);
    SendEnables(FillState(State(o.d, SendStandardHw(h0, m))).h, m, false);
  }

  /** A read has the transmit interrupts off and no length left over from a block read;
      if it is not given up it can go on and fail. */
  lemma ReadEnables(s: State)
    requires s.d.tx.Some? && TxMsg(s.d).rd
    ensures var r := StartNext(s);
            && TxHalf !in r.h.ier && TxEmpty !in r.h.ier
            && r.d.actualLen == 0 && r.d.rx == s.d.tx
            && (NotGivenUp(s) ==>
                  && RxFull in r.h.ier && TxError in r.h.ier
                  && (Bnb in r.h.ier <==> Bnb in s.h.ier || s.d.dynamic || s.d.nmsgs == 1))
  {
    hide Poll, RecvDynamicHw, RecvStandardHw, RecvStarted;
    var o := Opened(s);
    var m, h0 := TxMsg(o.d), IrqDis(o.h, {TxHalf, TxEmpty});
    PollKeepsEnables(h0);
    if o.d.dynamic {
      RecvEnables(h0, m, o.d.nmsgs == 1);
      StartedEnables(o.d, RecvDynamicHw(h0, m, o.d.nmsgs == 1));
    } else if NotGivenUp(s) {
      var h := if o.d.prevTx then Poll(h0) else h0;
      RecvEnables(h, m, false);
      StartedEnables(o.d, RecvStandardHw(h, m));
    }
  }

  // ----- Interrupts without a transfer -----

  lemma TogglesOff(h: Hw, v: set<Irq>)
    requires v <= h.isr
    ensures WriteIisr(h, v) == h.(isr := h.isr - v)
    ensures v == {} ==> WriteIisr(h, v) == h
  {
    assert v - h.isr == {};
  }

  /** With no message at all, and no error, a pass serves one kind of interrupt only: RX_FULL
      before the transmit ones before bus-not-busy. What it does not serve it leaves as it
      is, for the next pass. */
  lemma IdlePassServesOne(s: State, clkOk: bool)
    requires s.d.rx.None? && s.d.tx.None?
    requires ArbLost !in Pend(s.h) && (TxError !in Pend(s.h) || RxFull in Pend(s.h))
    ensures var r, pend := Process(s, clkOk), Pend(s.h);
            && r.d == s.d
            && (if RxFull in pend then
                  r.h == DrainRx(s.h).(isr := s.h.isr - {RxFull})
                else if TxEmpty in pend || TxHalf in pend then
                  r.h == s.h.(isr := s.h.isr - (pend * {TxEmpty, TxHalf}))
                else if Bnb in pend then
                  r.h == s.h.(isr := s.h.isr - {Bnb}, ier := s.h.ier - {Bnb})
                else
                  r.h == s.h)
  {
    hide DrainRx, Branches, WriteIisr, Finish, ErrorPass, EarlyRxDone;
    var pend := Pend(s.h);
    NoMessageBranches(s, pend);
    QuietFinish(Branches(s, pend, {}));
    if RxFull in pend {
      DrainFrame(s.h);
      TogglesOff(DrainRx(s.h), {RxFull});
    } else if TxEmpty in pend || TxHalf in pend {
      TogglesOff(s.h, pend * {TxEmpty, TxHalf});
    } else if Bnb in pend {
      TogglesOff(IrqDis(s.h, {Bnb}), {Bnb});
    } else {
      TogglesOff(s.h, {});
    }
  }

  lemma QuietFinish(p: Pass)
    requires !p.more && p.wake.None?
    ensures Finish(p, false) == State(p.s.d, WriteIisr(p.s.h, p.clr))
  {
  }

  lemma NoMessageBranches(s: State, pend: set<Irq>)
    requires s.d.rx.None? && s.d.tx.None?
    ensures var p := Branches(s, pend, {});
            && p.s.d == s.d && !p.more && p.wake.None?
            && (if RxFull in pend then p.s.h == DrainRx(s.h) && p.clr == {RxFull}
                else if TxEmpty in pend || TxHalf in pend then
                  p.s.h == s.h && p.clr == pend * {TxEmpty, TxHalf}
                else if Bnb in pend then p.s.h == IrqDis(s.h, {Bnb}) && p.clr == {Bnb}
                else p.s.h == s.h && p.clr == {})
  {
    hide FillState, ReadRx, DrainRx;
    var bits := pend * {TxEmpty, TxHalf};
    if TxEmpty in pend || TxHalf in pend {
      assert TxEmpty in bits || TxHalf in bits;
    } else {
      assert bits == {};
    }
  }
}
