/** What a time-out of the wait for "TX empty" costs. In every run, from the first
    time-out on, fewer words have been written than the transfer needs; so a
    success that is reported after one is never true. */
module XiicTimeOut {
  import opened XiicDevice
  import opened XiicSpec
  import opened XiicEncode
  import opened XiicCursor
  import opened XiicTransfer
  import opened XiicHandler

  function Lost(timedOut: bool): nat {
    if timedOut then 1 else 0
  }

  /** Writes stay as submitted. */
  predicate WritesKept(d: Drv) {
    && |d.msgs| == |d.sent|
    && forall j :: 0 <= j < |d.sent| && !d.sent[j].rd ==> d.msgs[j] == d.sent[j]
  }

  /** The number of words of the first k messages in standard mode. */
  function Words(sent: seq<Msg>, k: nat): nat
    requires k <= |sent|
  {
    |EncodeUpTo(sent, false, k)|
  }

  /** The number of words that may have been written so far. */
  function Budget(d: Drv): nat {
    match d.tx
    case None => Words(d.sent, |d.sent|)
    case Some(i) =>
      if i >= |d.sent| then 0
      else Words(d.sent, i) + 1 + (if d.sent[i].rd then 0 else d.txPos)
  }

  predicate WriteFits(d: Drv) {
    d.tx.Some? && d.tx.value < |d.sent| && !d.sent[d.tx.value].rd ==>
      d.txPos <= d.sent[d.tx.value].len
  }

  /** Dynamic mode never waits; in standard mode every time-out leaves a word unwritten. */
  predicate Counted(d: Drv, h: Hw, budget: nat) {
    if d.dynamic then !h.timedOut else |h.dtr| + Lost(h.timedOut) <= budget
  }

  predicate CountInv(s: State) {
    && Cursor(s) && WritesKept(s.d)
    && WriteFits(s.d) && Counted(s.d, s.h, Budget(s.d))
  }

  // ----- Words -----

  lemma WordsOfOne(sent: seq<Msg>, k: nat)
    requires k < |sent|
    ensures Words(sent, k + 1) == Words(sent, k) + 1 + (if sent[k].rd then 0 else sent[k].len)
  {
  }

  lemma {:induction false} WordsGrow(sent: seq<Msg>, k: nat)
    requires k <= |sent|
    ensures Words(sent, k) <= Words(sent, |sent|)
    decreases |sent| - k
  {
    if k < |sent| {
      WordsOfOne(sent, k);
      WordsGrow(sent, k + 1);
    }
  }

  lemma WordsAreAll(sent: seq<Msg>)
    ensures Words(sent, |sent|) == |Encode(sent, false)|
  {
    SplitEncoding(sent, false, |sent|);
  }

  // ----- Filling and starting -----

  lemma FillByteCounts(j: TxJob, x: TxIo)
    ensures var y := FillByte(j, x);
            && y.pos == x.pos + 1
            && |y.dtr| + Lost(y.timedOut) <= |x.dtr| + Lost(x.timedOut) + 1
            && (j.dynamic ==> y.timedOut == x.timedOut)
  {
    hide OrBit, ByteAt;
  }

  lemma {:induction false} FillCounts(j: TxJob, x: TxIo, n: int)
    requires n <= j.m.len - x.pos
    ensures var y := FillBytes(j, x, n);
            && x.pos <= y.pos && (n >= 0 ==> y.pos <= x.pos + n)
            && |y.dtr| + Lost(y.timedOut) + x.pos <= |x.dtr| + Lost(x.timedOut) + y.pos
            && (j.dynamic ==> y.timedOut == x.timedOut)
    decreases n
  {
    hide FillByte, FillGivesUp, Lost;
    if n > 0 {
      FillByteCounts(j, x);
      if !FillGivesUp(j, x) {
        FillCounts(j, FillByte(j, x), n - 1);
      }
    }
  }

  lemma FillStateCounts(s: State)
    requires s.d.txPos <= TxMsg(s.d).len
    ensures var r := FillState(s);
            && s.d.txPos <= r.d.txPos <= TxMsg(s.d).len
            && |r.h.dtr| + Lost(r.h.timedOut) + s.d.txPos <= |s.h.dtr| + Lost(s.h.timedOut) + r.d.txPos
            && (s.d.dynamic ==> r.h.timedOut == s.h.timedOut)
            && r.d == s.d.(txPos := r.d.txPos, overrun := r.d.overrun)
  {
    FillCounts(JobOf(s.d), TxView(s), Min(TxFifoSpace(s.h), TxMsg(s.d).len - s.d.txPos));
  }

  lemma RecvCounts(s: State)
    ensures var r := StartRecv(s);
            && r.d.tx == s.d.tx && r.d.msgs == s.d.msgs && r.d.sent == s.d.sent
            && r.d.dynamic == s.d.dynamic
            && (s.d.dynamic ==> r.h.timedOut == s.h.timedOut)
            && (!s.d.dynamic ==> |r.h.dtr| + Lost(r.h.timedOut) <= |s.h.dtr| + Lost(s.h.timedOut) + 1)
  {
    hide RecvStandardHw, RecvDynamicHw, RecvStarted, Poll, PollOk;
    var h, m, last := IrqDis(s.h, {TxHalf, TxEmpty}), TxMsg(s.d), s.d.nmsgs == 1;
    RecvFrame(s);
    RecvHwCounts(h, m, last);
    RecvHwCounts(Poll(h), m, last);
    PollCounts(s.h, h);
    RecvStartedFrame(s.d, RecvDynamicHw(h, m, last));
    RecvStartedFrame(s.d, RecvStandardHw(h, m));
    RecvStartedFrame(s.d, RecvStandardHw(Poll(h), m));
  }

  lemma PollCounts(g: Hw, h: Hw)
    requires h.isr == g.isr && h.polls == g.polls && h.timedOut == g.timedOut
    ensures var r := Poll(h);
            && r.dtr == h.dtr && Lost(r.timedOut) <= 1 && Lost(h.timedOut) >= 0
            && (PollOk(g) ==> r.timedOut == h.timedOut)
  {
  }

  lemma RecvHwCounts(h: Hw, m: Msg, last: bool)
    ensures var r := RecvStandardHw(h, m); |r.dtr| == |h.dtr| + 1 && r.timedOut == h.timedOut
    ensures var r := RecvDynamicHw(h, m, last); r.timedOut == h.timedOut
  {
    hide PlanRead, FirstCr, AddrByte, IrqClrEn, RequestRead;
    RecvHwFrame(h, m, last);
    PlanFrame(h, m);
    ClrEnFields(PlanRead(h, m), {RxFull, TxError});
  }

  lemma SendCounts(s: State)
    requires s.d.txPos == 0
    ensures var r := StartSend(s);
            && r.d.txPos <= TxMsg(s.d).len
            && r.d.tx == s.d.tx && r.d.msgs == s.d.msgs && r.d.sent == s.d.sent
            && r.d.dynamic == s.d.dynamic
            && (s.d.dynamic ==> r.h.timedOut == s.h.timedOut)
            && (!s.d.dynamic ==>
                  |r.h.dtr| + Lost(r.h.timedOut) <= |s.h.dtr| + Lost(s.h.timedOut) + 1 + r.d.txPos)
  {
    hide FillState, SendDynamicHw, SendStandardHw, SendStandardEndHw, Poll, PollOk;
    var m, last := TxMsg(s.d), s.d.nmsgs == 1;
    var h := AfterWait(s);
    PollCounts(s.h, s.h);
    SendHwCounts(s.h, m, last);
    SendHwCounts(h, m, last);
    if s.d.dynamic {
      FillStateCounts(State(s.d, SendDynamicHw(s.h, m, last)));
    } else if !StartGivesUp(s) {
      var t := State(s.d, SendStandardHw(h, m));
      FillStateCounts(t);
      SendHwFrame(FillState(t).h, m, last, Msms in h.cr);
    }
  }

  lemma SendHwCounts(h: Hw, m: Msg, last: bool)
    ensures var r := SendStandardHw(h, m); |r.dtr| == |h.dtr| + 1 && r.timedOut == h.timedOut
    ensures var r := SendDynamicHw(h, m, last); r.timedOut == h.timedOut
  {
  }

  /** A message is started: its address, and what fits of it, or less if it times out. */
  lemma StartNextCounts(s: State)
    requires CursorOf(s.d) && s.d.rx.None? && WritesKept(s.d)
    requires s.d.tx.Some? && Counted(s.d, s.h, Words(s.d.sent, s.d.tx.value))
    ensures CountInv(StartNext(s))
  {
    hide StartRecv, StartSend, Cursor;
    StartNextKeepsCursor(s);
    StartNextFrame(s);
    var i := s.d.tx.value;
    assert s.d.msgs[i].rd == s.d.sent[i].rd;
    if TxMsg(s.d).rd {
      RecvCounts(Opened(s));
    } else {
      SendCounts(Opened(s));
    }
  }

  // ----- The handler -----

  /** At the label "out". */
  predicate PassCount(p: Pass) {
    && WritesKept(p.s.d) && CursorOf(p.s.d)
    && (if p.more
        then p.s.d.tx.Some? && p.s.d.rx.None?
             && Counted(p.s.d, p.s.h, Words(p.s.d.sent, p.s.d.tx.value))
        else WriteFits(p.s.d) && Counted(p.s.d, p.s.h, Budget(p.s.d)))
  }

  lemma RxPartCounts(s: State, pend: set<Irq>, clr: set<Irq>)
    requires CountInv(s)
    ensures PassCount(RxPart(s, pend, clr))
  {
    hide ReadRx, TrimLen, EncodeUpTo, Counted;
    RxPartKeepsCursor(s, pend, clr);
    var r := RxPart(s, pend, clr).s;
    RxKeepsWords(s, pend, clr);
    SameCount(s, r);
    if RxFull in pend && s.d.rx.Some? {
      assert s.d.sent[s.d.tx.value].rd;
      WordsOfOne(s.d.sent, s.d.tx.value);
    }
  }

  /** Reading writes no words, and no message but the one being read. */
  lemma RxKeepsWords(s: State, pend: set<Irq>, clr: set<Irq>)
    requires Cursor(s) && WritesKept(s.d)
    ensures var r := RxPart(s, pend, clr).s;
            && r.h.dtr == s.h.dtr && r.h.timedOut == s.h.timedOut
            && r.d.dynamic == s.d.dynamic && r.d.sent == s.d.sent && r.d.txPos == s.d.txPos
            && WritesKept(r.d)
  {
    hide ReadRx, TrimLen, WithRx, Left, DrainRx;
    DrainFrame(s.h);
    if RxFull in pend && s.d.rx.Some? {
      var x := ReadRx(RxView(s), s.d.dynamic, s.d.nmsgs == 1);
      ReadKeepsFields(s, x);
      ReadKeepsFields(s, TrimLen(x));
    }
  }

  /** Counting looks at three fields only. */
  lemma SameCount(s: State, r: State)
    requires r.d.dynamic == s.d.dynamic && r.h.dtr == s.h.dtr && r.h.timedOut == s.h.timedOut
    ensures forall budget: nat :: Counted(s.d, s.h, budget) <==> Counted(r.d, r.h, budget)
  {
  }

  lemma TxPartCounts(p: Pass, pend: set<Irq>)
    requires PassCount(p)
    requires p.more || p.s.d.rx.Some? ==> pend * {TxEmpty, TxHalf} == {}
    requires p.s.d.tx.Some? && TxMsg(p.s.d).rd ==> pend * {TxEmpty, TxHalf} == {}
    ensures PassCount(TxPart(p, pend))
  {
    hide EncodeUpTo, FillState;
    TxPartKeepsCursor(p, pend);
    if p.s.d.tx.Some? && !TxMsg(p.s.d).rd {
      var i := p.s.d.tx.value;
      assert p.s.d.msgs[i] == p.s.d.sent[i];
      WordsOfOne(p.s.d.sent, i);
      if !p.more {
        FillStateCounts(p.s);
      }
    }
  }

  lemma BnbPartCounts(p: Pass, pend: set<Irq>)
    requires PassCount(p) && p.wake.None?
    ensures PassCount(BnbPart(p, pend))
  {
    hide EncodeUpTo, BnbPart, Words;
    BnbPartKeepsCursor(p, pend);
    BnbChanges(p, pend);
  }

  lemma BranchesCount(s: State, pend: set<Irq>, clr: set<Irq>)
    requires CountInv(s)
    requires pend * {TxEmpty, TxHalf} <= s.h.ier
    ensures PassCount(Branches(s, pend, clr))
  {
    hide RxPart, TxPart, BnbPart, PassCount;
    RxPartKeepsCursor(s, pend, clr);
    RxPartCounts(s, pend, clr);
    var p1 := RxPart(s, pend, clr);
    NoTxIrqs(s, p1, pend, clr);
    TxPartCounts(p1, pend);
    TxPartKeepsCursor(p1, pend);
    BnbPartCounts(TxPart(p1, pend), pend);
  }

  lemma NoTxIrqs(s: State, p1: Pass, pend: set<Irq>, clr: set<Irq>)
    requires Cursor(s) && p1 == RxPart(s, pend, clr) && pend * {TxEmpty, TxHalf} <= s.h.ier
    ensures p1.more || p1.s.d.rx.Some? ==> pend * {TxEmpty, TxHalf} == {}
    ensures p1.s.d.tx.Some? && TxMsg(p1.s.d).rd ==> pend * {TxEmpty, TxHalf} == {}
  {
    hide ReadRx, TrimLen;
    RxPartKeepsCursor(s, pend, clr);
    if pend * {TxEmpty, TxHalf} != {} {
      assert s.d.tx.Some? ==> !TxMsg(s.d).rd;
    }
  }

  lemma ProcessCounts(s: State, clkOk: bool)
    requires CountInv(s)
    ensures CountInv(Process(s, clkOk))
  {
    hide Branches, Process, ReinitHw, CursorOf, Cursor;
    ProcessKeepsCursor(s, clkOk);
    var pend := Pend(s.h);
    if !IsErrorPend(pend) {
      BranchesCount(s, pend, {});
    } else if EarlyRxDone(s, pend) {
      BranchesCount(s, pend + {RxFull}, {TxError});
    } else {
      ErrorCounts(s, clkOk);
    }
    FinishCounts(s, ProcessPass(s, clkOk), NoRxFullBit(s));
    ProcessIs(s, clkOk);
  }

  lemma ErrorCounts(s: State, clkOk: bool)
    requires CountInv(s)
    ensures PassCount(ErrorPass(s, clkOk))
  {
    hide EncodeUpTo;
  }

  lemma FinishCounts(s: State, p: Pass, noRxFull: bool)
    requires PassCount(p)
    ensures var r := Finish(p, noRxFull);
            && WritesKept(r.d)
            && WriteFits(r.d) && Counted(r.d, r.h, Budget(r.d))
  {
    hide StartNext, EncodeUpTo;
    var s1 := State(p.s.d, WriteIisr(p.s.h, ClearWord(p, noRxFull)));
    if p.more {
      StartNextCounts(s1);
      WakeCounts(StartNext(s1).d, StartNext(s1).h);
    } else {
      WakeCounts(s1.d, s1.h);
    }
  }

  /** Ending the transfer never needs more words than the whole list has. */
  lemma WakeCounts(d: Drv, h: Hw)
    requires WriteFits(d) && Counted(d, h, Budget(d)) && |d.msgs| == |d.sent|
    requires d.tx.Some? ==> d.tx.value < |d.sent|
    ensures forall status :: Counted(Wakeup(d, status), h, Budget(Wakeup(d, status)))
  {
    if d.tx.Some? {
      WordsOfOne(d.sent, d.tx.value);
      WordsGrow(d.sent, d.tx.value + 1);
    }
  }

  lemma StepCounts(s: State, e: Event, clkOk: bool)
    requires CountInv(s)
    ensures CountInv(Step(s, e, clkOk))
  {
    hide Process;
    StepKeepsCursor(s, e, clkOk);
    if e.Interrupt? {
      ProcessCounts(s, clkOk);
    }
  }

  lemma {:induction false} RunCounts(s: State, events: seq<Event>, clkOk: bool)
    requires CountInv(s)
    ensures CountInv(Run(s, events, clkOk))
    decreases |events|
  {
    hide CountInv, Step;
    if events != [] {
      StepCounts(s, events[0], clkOk);
      RunCounts(Step(s, events[0], clkOk), events[1..], clkOk);
    }
  }

  lemma StartCounts(s: State, msgs: seq<Msg>, c: Config, stuck: (bool, bool))
    requires msgs != [] && StartXferRet(s, c, stuck).Ok?
    ensures CountInv(StartXfer(s, msgs, c, stuck))
  {
    hide StartNext, CountInv;
    var h1 := FreedHw(s.h, c, stuck);
    StartNextCounts(State(Submit(s.d, msgs, c.readBroken), ReinitHw(ClearHistory(h1), c.clkOk)));
  }

  // ----- Main results -----

  /** In every run of every transfer a time-out means that the mode is standard and
      words are missing. */
  lemma TimeOutLosesWords(s: State, msgs: seq<Msg>, c: Config, stuck: (bool, bool),
                          events: seq<Event>)
    requires msgs != [] && StartXferRet(s, c, stuck).Ok?
    ensures var r := Run(StartXfer(s, msgs, c, stuck), events, c.clkOk);
            r.h.timedOut ==>
              && !r.d.dynamic && |r.h.dtr| < |Encode(msgs, r.d.dynamic)| && !AllDone(r)
  {
    hide Process, StartXfer, Step;
    StartCounts(s, msgs, c, stuck);
    StartXferSetsCursor(s, msgs, c, stuck);
    RunCounts(StartXfer(s, msgs, c, stuck), events, c.clkOk);
    RunKeepsCursor(StartXfer(s, msgs, c, stuck), events, c.clkOk);
    var r := Run(StartXfer(s, msgs, c, stuck), events, c.clkOk);
    WakeCounts(r.d, r.h);
    WordsAreAll(r.d.sent);
    assert Counted(Wakeup(r.d, Done), r.h, Budget(Wakeup(r.d, Done)));
  }

  /** So a reported success is true if and only if no wait has timed out, when the list
      has a safe end, or the bus was never found free too early, or else when the handler's
      own warning has not fired; supposing that no block-read flag was left over and no byte
      was clocked for an empty read. */
  lemma SuccessIffNoTimeOut(s: State, msgs: seq<Msg>, c: Config, stuck: (bool, bool),
                            events: seq<Event>)
    requires msgs != [] && StartXferRet(s, c, stuck).Ok? && !s.d.blockRead
    requires ValidTransfer(msgs, UsesDynamic(msgs, c.readBroken))
    ensures var r := Run(StartXfer(s, msgs, c, stuck), events, c.clkOk);
            var held := HeldBus(StartXfer(s, msgs, c, stuck), events, c.clkOk);
            XferRet(r).Ok? && !r.h.stray && (SafeEnd(msgs) || held || !r.d.warned) ==>
              (AllDone(r) <==> !r.h.timedOut)
  {
    hide StartXfer, Run, AllDone, ValidTransfer, SafeEnd, HeldBus;
    SuccessIsSound(s, msgs, c, stuck, events);
    if SafeEnd(msgs) {
      SafeListIsSound(s, msgs, c, stuck, events);
    }
    TimeOutLosesWords(s, msgs, c, stuck, events);
  }
}
