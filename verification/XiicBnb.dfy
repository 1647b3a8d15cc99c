/** When "bus not busy" is enabled. In dynamic mode it is throughout; in standard mode
    from the first write on, or from the start of the last message; or, if RESETR leaves
    IIER alone, because an earlier transfer has left it so. */
module XiicBnb {
  import opened XiicDevice
  import opened XiicSpec
  import opened XiicCursor
  import opened XiicTransfer
  import opened XiicReads
  import opened XiicProgress
  import opened XiicRuns
  import opened XiicWaits

  /** One of the messages 0 .. i is a write. */
  predicate WriteUpTo(sent: seq<Msg>, i: int) {
    exists j :: 0 <= j <= i && j < |sent| && !sent[j].rd
  }

  /** It is still enabled after a reinitialisation. */
  predicate BnbStays(h: Hw) {
    Bnb in h.ier && !h.chip.resetIrq
  }

  /** Can the handler find the bus free before the last message is started? */
  predicate SeesFree(h: Hw, msgs: seq<Msg>, dynamic: bool) {
    dynamic || BnbStays(h) || WriteUpTo(msgs, |msgs| - 2)
  }

  // ----- A start -----

  lemma RecvBnb(s: State)
    ensures Bnb in s.h.ier || s.d.dynamic ==> Bnb in StartRecv(s).h.ier
    ensures Bnb in StartRecv(s).h.ier ==> Bnb in s.h.ier || s.d.dynamic || s.d.nmsgs == 1
  {
    hide RecvDynamicHw, RecvStandardHw, IrqClrEn, Poll, PollOk;
    var h, m, last := IrqDis(s.h, {TxHalf, TxEmpty}), TxMsg(s.d), s.d.nmsgs == 1;
    PollFrame(h);
    RecvHwFrame(h, m, last);
    RecvHwFrame(Poll(h), m, last);
    ClrEnFields(RecvDynamicHw(h, m, last), {Bnb});
    ClrEnFields(RecvStandardHw(h, m), {Bnb});
    ClrEnFields(RecvStandardHw(Poll(h), m), {Bnb});
  }

  lemma SendDynamicBnb(h: Hw, m: Msg, last: bool)
    ensures Bnb in SendDynamicHw(h, m, last).ier
  {
  }

  lemma SendBnb(s: State)
    requires s.d.dynamic || s.h.polls == []
    ensures Bnb in StartSend(s).h.ier
  {
    hide FillState, SendDynamicHw, SendStandardHw, SendStandardEndHw, Poll;
    var m, last := TxMsg(s.d), s.d.nmsgs == 1;
    var h := AfterWait(s);
    var t := State(s.d, SendStandardHw(h, m));
    FillFrame(State(s.d, SendDynamicHw(s.h, m, last)));
    SendDynamicBnb(s.h, m, last);
    SendHwFrame(FillState(t).h, m, last, Msms in h.cr);
  }

  lemma StartBnb(s: State)
    requires s.d.tx.Some?
    ensures var r := StartNext(s).h;
            && (Bnb in r.ier && TxMsg(s.d).rd ==> Bnb in s.h.ier || s.d.dynamic || s.d.nmsgs == 1)
            && (s.d.dynamic || s.h.polls == [] ==>
                  (Bnb in s.h.ier || s.d.dynamic || !TxMsg(s.d).rd ==> Bnb in r.ier))
  {
    hide StartRecv, StartSend;
    RecvBnb(Opened(s));
    if s.d.dynamic || s.h.polls == [] {
      SendBnb(Opened(s));
    }
  }

  // ----- A pass -----

  lemma BranchesKeepBnb(s: State, pend: set<Irq>, clr: set<Irq>)
    ensures var r := Branches(s, pend, clr).s.h.ier;
            (Bnb in r ==> Bnb in s.h.ier) && (Bnb in s.h.ier && Bnb !in pend ==> Bnb in r)
  {
    hide RxPart, TxPart, FillState;
    RxPartFrame(s, pend, clr);
    var p1 := RxPart(s, pend, clr);
    TxPartCases(p1, pend);
    FillFrame(p1.s);
  }

  /** A pass that does not end the transfer, nor see the bus free, leaves it enabled. */
  lemma PassKeepsBnb(s: State, clkOk: bool)
    requires Bnb !in Pend(s.h) && ProcessPass(s, clkOk).wake.None? && s.d.tx.Some?
    ensures Bnb in s.h.ier <==> Bnb in ProcessPass(s, clkOk).s.h.ier
  {
    hide Branches, EarlyRxDone, ReinitHw;
    BranchesKeepBnb(s, Pend(s.h), {});
    BranchesKeepBnb(s, Pend(s.h) + {RxFull}, {TxError});
  }

  /** Enabled by a write of the list, or from the start. */
  predicate BnbOn(s: State, base: bool) {
    s.d.tx.Some? && (base || s.d.dynamic || WriteUpTo(s.d.sent, s.d.tx.value)) ==> Bnb in s.h.ier
  }

  lemma MoreWrites(sent: seq<Msg>, i: nat)
    ensures WriteUpTo(sent, i + 1) ==> WriteUpTo(sent, i) || (i + 1 < |sent| && !sent[i + 1].rd)
  {
  }

  lemma ProcessKeepsBnbOn(s: State, base: bool)
    requires Cursor(s) && HalfOff(s) && BnbOn(s, base) && Bnb !in Pend(s.h)
    requires s.d.dynamic || s.h.polls == []
    ensures BnbOn(Process(s, true), base)
  {
    hide ProcessPass, StartNext, NoRxFullBit, WriteUpTo;
    CursorIsQuiet(s);
    PassKeepsCursor(s, true);
    PassNeverWaits(s, true);
    var p := ProcessPass(s, true);
    var s1 := State(p.s.d, WriteIisr(p.s.h, ClearWord(p, NoRxFullBit(s))));
    StartNextFrame(s1);
    if s.d.tx.Some? && p.wake.None? {
      PassKeepsBnb(s, true);
      if p.more {
        MoreWrites(s.d.sent, s.d.tx.value);
        StartBnb(s1);
      }
    }
  }

  // ----- Rounds before the last message -----

  /** What the handler finds in a round before the last message. */
  function InRound(s: State, slaves: Slaves): Hw
    requires s.d.tx.Some?
  {
    var slave := slaves(s.d.tx.value);
    if s.d.rx.None? then Latch(Drain(s.h, 0), {TxEmpty})
    else Latch(Feed(s.h, slave), RoundBits(Feed(s.h, slave), slave.nack))
  }

  lemma RoundFinds(s: State, slaves: Slaves)
    requires Lively(s, slaves) && s.d.nmsgs >= 2
    ensures var h := InRound(s, slaves);
            && BusRound(s, slaves) == Process(State(s.d, h), true)
            && Bnb !in Pend(h) && h.ier == s.h.ier && h.polls == s.h.polls
  {
    hide Feed, Lively, CalmRead, Pend, Process;
    LivelyIsQuiet(s, slaves);
    var h := InRound(s, slaves);
    if s.d.rx.Some? {
      FeedFrame(s, slaves(s.d.tx.value));
      NotPending(s.h, h, {RxFull, TxError});
    } else {
      NotPending(s.h, h, {TxEmpty});
    }
  }

  lemma LivelyIsQuiet(t: State, slaves: Slaves)
    requires Lively(t, slaves)
    ensures Pend(t.h) == {} && t.d.tx.Some?
    ensures Cursor(t) && HalfOff(t) && (t.d.dynamic || t.h.polls == [])
  {
    hide Data, SilentWhenEmpty;
  }

  lemma NotPending(h: Hw, g: Hw, bits: set<Irq>)
    requires Pend(h) == {} && g.isr <= h.isr + bits && g.ier == h.ier && Bnb !in bits
    ensures Bnb !in Pend(g)
  {
    assert Bnb !in h.isr * h.ier;
  }

  lemma {:induction false} RoundsKeepBnbOn(s: State, slaves: Slaves, n: nat, base: bool)
    requires RoundsBefore(s, slaves, n) && BnbOn(s, base)
    ensures BnbOn(BusRounds(s, slaves, n), base)
    decreases n
  {
    hide BusRound, Lively, Process, BnbOn, InRound, Cursor, HalfOff;
    if n > 0 {
      RoundFinds(s, slaves);
      LivelyIsQuiet(s, slaves);
      var t := State(s.d, InRound(s, slaves));
      SameOn(s, t, base);
      ProcessKeepsBnbOn(t, base);
      RoundsKeepBnbOn(BusRound(s, slaves), slaves, n - 1, base);
    }
  }

  lemma SameOn(s: State, t: State, base: bool)
    requires Cursor(s) && HalfOff(s) && BnbOn(s, base) && t.d == s.d && t.h.ier == s.h.ier
    ensures Cursor(t) && HalfOff(t) && BnbOn(t, base)
  {
    hide WriteUpTo;
  }

  // ----- A list in which it stays disabled -----

  /** Before the last message there are only reads, and it is disabled. */
  predicate BnbOff(s: State) {
    && !s.d.dynamic && !WriteUpTo(s.d.sent, |s.d.sent| - 2)
    && (s.d.tx.Some? && s.d.nmsgs > 1 ==> Bnb !in s.h.ier)
  }

  lemma ProcessKeepsBnbOff(s: State, clkOk: bool)
    requires Cursor(s) && BnbOff(s)
    ensures BnbOff(Process(s, clkOk))
  {
    hide ProcessPass, StartNext, NoRxFullBit;
    CursorIsQuiet(s);
    PassKeepsCursor(s, clkOk);
    ProcessKeepsCursor(s, clkOk);
    var p := ProcessPass(s, clkOk);
    var s1 := State(p.s.d, WriteIisr(p.s.h, ClearWord(p, NoRxFullBit(s))));
    StartNextFrame(s1);
    if p.more && s1.d.nmsgs > 1 && p.wake.None? {
      assert s.d.sent[s1.d.tx.value].rd;
      StartBnb(s1);
    }
  }

  lemma {:induction false} BnbOffNeverWarns(s: State, events: seq<Event>, clkOk: bool)
    requires Cursor(s) && BnbOff(s) && !s.d.warned
    ensures !Run(s, events, clkOk).d.warned
    decreases |events|
  {
    hide Process, Cursor, WriteUpTo;
    if events != [] {
      StepKeepsCursor(s, events[0], clkOk);
      if events[0].Interrupt? {
        ProcessWarns(s, clkOk);
        if s.d.nmsgs > 1 {
          IdleWarns(s);
        }
        ProcessKeepsBnbOff(s, clkOk);
      }
      BnbOffNeverWarns(Step(s, events[0], clkOk), events[1..], clkOk);
    }
  }

  lemma IdleWarns(s: State)
    requires Cursor(s) && s.d.nmsgs > 1
    ensures s.d.tx.Some?
  {
  }

  // ----- The first message -----

  lemma StartedBnb(s: State, msgs: seq<Msg>, c: Config)
    requires CanStart(s, msgs, c)
    ensures var r, dynamic := StartXfer(s, msgs, c, (false, false)), UsesDynamic(msgs, c.readBroken);
            && BnbOn(r, BnbStays(s.h))
            && (!SeesFree(s.h, msgs, dynamic) ==> BnbOff(r))
  {
    hide StartNext, ReinitHw, UsesDynamic, SilentWhenEmpty, ValidTransfer;
    StartXferSetsCursor(s, msgs, c, (false, false));
    StartIs(s, msgs, c);
    ReinitFrame(ClearHistory(s.h), c.clkOk);
    var t := State(Submit(s.d, msgs, c.readBroken), ReinitHw(ClearHistory(s.h), c.clkOk));
    StartBnb(t);
    assert BnbStays(s.h) <==> Bnb in t.h.ier;
    assert WriteUpTo(msgs, 0) <==> !msgs[0].rd;
  }
}
