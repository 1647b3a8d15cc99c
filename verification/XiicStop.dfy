/** START, direction and STOP in standard mode, where they are bits of the control
    register: while MSMS is set the controller holds the bus, and clearing it asks
    for the STOP. */
module XiicStop {
  import opened Wrappers
  import opened XiicDevice
  import opened XiicSpec
  import opened XiicEncode
  import opened XiicReading
  import opened XiicCursor
  import opened XiicTransfer
  import opened XiicHandler

  /** The last message's final byte has been read, or written. */
  predicate LastIsOut(d: Drv) {
    d.nmsgs == 1 && d.tx.Some?
    && if TxMsg(d).rd then d.rx.None? else 0 < TxMsg(d).len == d.txPos
  }

  /** STOP has been asked for exactly if the driver has nothing more to read or write.
      What the TX FIFO still holds at that moment is the subject of XiicWaits. */
  predicate StopInTime(d: Drv, h: Hw) {
    !d.dynamic && !Astray(h) && d.tx.Some? ==> (Msms !in h.cr <==> LastIsOut(d))
  }

  /** Standard mode is chosen for the sake of a read, so a single message is one. */
  predicate SingleIsRead(d: Drv) {
    !d.dynamic && |d.sent| == 1 ==> d.sent[0].rd
  }

  predicate StopInv(s: State) {
    Inv(s) && StopInTime(s.d, s.h) && SingleIsRead(s.d)
  }

  // ----- Reading and filling -----

  lemma {:induction false} ReadBytesKeepCr(x: RxIo, n: int)
    ensures ReadBytes(x, n).cr == x.cr
    decreases n
  {
    if n > 0 {
      ReadBytesKeepCr(ReadByte(x), n - 1);
    }
  }

  /** MSMS is cleared with the final byte of the last message, and only then. */
  lemma ReadAsksForStop(o: Msg, x: RxIo, log: ReadLog, bus: BusRead, last: bool)
    requires Reading(o, x, log, bus, false) && Ripe(x)
    ensures var y := ReadRx(x, false, last);
            Msms in y.cr <==> Msms in x.cr && !(last && Left(y) == 0)
  {
    hide ReadByte, BlockReadSetup;
    ReadKeepsOrder(o, x, log, bus, false, last);
    if x.m.recvLen {
      CountRead(o, x, log, bus, last);
      CountFields(x);
    } else if OpenPhase(x, bus) {
      OpenRead(o, x, log, bus, last);
      var rem := Left(x) - Available(x);
      ReadBytesKeepCr(x, Available(x));
      ReadBytesKeepCr(x, rem - 1);
      ReadBytesKeepCr(x.(cr := x.cr + {NoAck}), 1);
    } else {
      ClosingRead(o, x, log, bus, last);
      ReadBytesKeepCr(x.(cr := (if last then x.cr - {Msms} else x.cr) - {NoAck}), Available(x));
    }
  }

  /** Filling clears MSMS with the final byte of the last message, and changes no
      other control bit. */
  lemma {:induction false} FillAsksForStop(j: TxJob, x: TxIo, n: int)
    requires !j.dynamic && 0 <= n <= j.m.len - x.pos && !FillBytes(j, x, n).timedOut
    ensures var y := FillBytes(j, x, n);
            y.cr == if j.last && n > 0 && x.pos + n == j.m.len then x.cr - {Msms} else x.cr
    decreases n
  {
    if n > 0 && !FillGivesUp(j, x) {
      FillAsksForStop(j, FillByte(j, x), n - 1);
    }
  }

  lemma FillStateStop(s: State)
    requires !s.d.dynamic && s.d.txPos <= TxMsg(s.d).len
    requires !FillState(s).h.timedOut
    ensures var r := FillState(s);
            && r.h.cr == (if s.d.nmsgs == 1 && s.d.txPos < r.d.txPos == TxMsg(s.d).len
                          then s.h.cr - {Msms} else s.h.cr)
            && s.d.txPos <= r.d.txPos <= TxMsg(s.d).len
            && r.d == s.d.(txPos := r.d.txPos, overrun := r.d.overrun)
  {
    hide FillBytes;
    var j, x := JobOf(s.d), TxView(s);
    var n := Min(TxFifoSpace(s.h), TxMsg(s.d).len - s.d.txPos);
    FillAsksForStop(j, x, n);
    FillMoves(j, x, n);
  }

  lemma {:induction false} FillMoves(j: TxJob, x: TxIo, n: int)
    requires n >= 0 && !FillBytes(j, x, n).timedOut
    ensures FillBytes(j, x, n).pos == x.pos + n
    decreases n
  {
    if n > 0 && !FillGivesUp(j, x) {
      FillMoves(j, FillByte(j, x), n - 1);
    }
  }

  // ----- Starting -----

  /** A read turns the direction to receive, a write to transmit; a controller that is
      already master gives a repeated START. */
  lemma RecvTurns(h: Hw, m: Msg)
    ensures var r := RecvStandardHw(h, m);
            Msms in r.cr && DirTx !in r.cr && (Msms in h.cr ==> RepStart in r.cr)
  {
  }

  lemma RecvStops(s: State)
    requires s.d.tx.Some? && !s.d.dynamic && !StartRecv(s).h.timedOut
    ensures var r := StartRecv(s);
            Msms in r.h.cr && DirTx !in r.h.cr && (Msms in s.h.cr ==> RepStart in r.h.cr)
  {
    hide RecvStandardHw, RecvStarted, Poll, PollOk;
    var h := IrqDis(s.h, {TxHalf, TxEmpty});
    RecvTurns(h, TxMsg(s.d));
    RecvTurns(Poll(h), TxMsg(s.d));
    PollFrame(h);
    RecvStartedFrame(s.d, RecvStandardHw(h, TxMsg(s.d)));
    RecvStartedFrame(s.d, RecvStandardHw(Poll(h), TxMsg(s.d)));
    GivesUpTimesOut(s.h, h);
  }

  lemma SendTurns(h: Hw, m: Msg)
    ensures var r := SendStandardHw(h, m);
            && r == h.(cr := r.cr, dtr := r.dtr, txLevel := r.txLevel, overflow := r.overflow)
            && (if Msms in h.cr then Msms in r.cr && DirTx in r.cr && RepStart in r.cr && NoAck !in r.cr
                else r.cr == h.cr)
  {
  }

  lemma SendEnds(h: Hw, wasMaster: bool)
    ensures var r := SendStandardEndHw(h, wasMaster);
            && r.cr == (if wasMaster then h.cr else h.cr + {Msms, DirTx})
            && r.timedOut == h.timedOut
  {
  }

  lemma SendStops(s: State)
    requires s.d.tx.Some? && !s.d.dynamic && s.d.txPos == 0
    requires Msms in s.h.cr || s.d.nmsgs > 1
    requires !StartSend(s).h.timedOut
    ensures var r := StartSend(s);
            && (Msms !in r.h.cr <==> s.d.nmsgs == 1 && 0 < TxMsg(s.d).len == r.d.txPos)
            && DirTx in r.h.cr && (Msms in s.h.cr ==> RepStart in r.h.cr && NoAck !in r.h.cr)
  {
    hide FillState, SendStandardHw, SendStandardEndHw, Poll, PollOk;
    PollFrame(s.h);
    GivesUpTimesOut(s.h, s.h);
    if !StartGivesUp(s) {
      var h := AfterWait(s);
      var t := State(s.d, SendStandardHw(h, TxMsg(s.d)));
      SendTurns(h, TxMsg(s.d));
      SendEnds(FillState(t).h, Msms in h.cr);
      FillStateStop(t);
    }
  }

  /** How message i of a standard-mode transfer is begun: direction bit, repeated START
      if the controller is master, and STOP at once only for a last write that fits. */
  lemma StartStops(s: State, i: nat)
    requires Boundary(s, i) && !s.d.dynamic && !Astray(StartNext(s).h)
    requires Msms in s.h.cr || s.d.nmsgs > 1 || s.d.sent[i].rd
    ensures var r := StartNext(s);
            && StopInTime(r.d, r.h)
            && (DirTx in r.h.cr <==> !s.d.sent[i].rd)
            && (Msms in s.h.cr ==> RepStart in r.h.cr)
            && (Msms in s.h.cr && !s.d.sent[i].rd ==> NoAck !in r.h.cr)
  {
    hide StartRecv, StartSend, History, EncodeUpTo;
    StartNextFrame(s);
    BoundaryTx(s, i);
    if s.d.sent[i].rd {
      RecvStops(Opened(s));
    } else {
      SendStops(Opened(s));
    }
  }

  // ----- The handler -----

  /** Between the branches: if the pass goes on, the bus is still held. */
  predicate PassStop(p: Pass) {
    if p.more then !p.s.d.dynamic && !Astray(p.s.h) ==> Msms in p.s.h.cr
    else StopInTime(p.s.d, p.s.h)
  }

  lemma RxPartStops(s: State, i: nat, pend: set<Irq>, clr: set<Irq>)
    requires Running(s, i) && StopInTime(s.d, s.h)
    requires RxFull in pend && s.d.rx.Some? ==> Ripe(RxView(s))
    ensures PassStop(RxPart(s, pend, clr))
  {
    hide ReadRx, TrimLen, History, Reading;
    if RxFull in pend && s.d.rx.Some? {
      ReadingHere(s, i);
      var x := ReadRx(RxView(s), s.d.dynamic, s.d.nmsgs == 1);
      if !s.d.dynamic {
        ReadAsksForStop(s.d.sent[i], RxView(s), s.h.logs[i], s.h.bus, s.d.nmsgs == 1);
      }
      ReadRxKeepsDirection(RxView(s), s.d.dynamic, s.d.nmsgs == 1);
      SameDirection(s, x);
      TrimKeepsCr(x);
      SameDirection(s, TrimLen(x));
    }
  }

  lemma ReadingHere(s: State, i: nat)
    requires Running(s, i) && s.d.rx.Some?
    ensures Receiving(s, i) && s.d.rx == s.d.tx == Some(i) && i < |s.d.msgs|
    ensures i < |s.d.sent| && i < |s.h.logs|
    ensures Reading(s.d.sent[i], RxView(s), s.h.logs[i], s.h.bus, s.d.dynamic)
    ensures TxMsg(s.d).rd
  {
  }

  lemma TrimKeepsCr(x: RxIo)
    ensures TrimLen(x).cr == x.cr && TrimLen(x).m.rd == x.m.rd
  {
  }

  lemma SameDirection(s: State, x: RxIo)
    requires s.d.rx.Some? && s.d.rx == s.d.tx && s.d.rx.value < |s.d.msgs|
    ensures var t := WithRx(s, x);
            && t.h.cr == x.cr && Astray(t.h) == Astray(s.h) && t.d.nmsgs == s.d.nmsgs
            && t.d.dynamic == s.d.dynamic && t.d.tx == s.d.tx && TxMsg(t.d) == x.m
  {
  }

  lemma TxPartStops(p: Pass, i: nat, pend: set<Irq>)
    requires AfterBranch(p, i) && PassStop(p)
    requires !p.more && !Writing(p.s, i) ==> p.jumped || pend * {TxEmpty, TxHalf} == {}
    requires p.more ==> pend * {TxEmpty, TxHalf} == {}
    ensures !TxPart(p, pend).s.h.timedOut ==> PassStop(TxPart(p, pend))
  {
    hide FillState, EncodeUpTo, History, WordsUpTo;
    if !p.more && !p.jumped && pend * {TxEmpty, TxHalf} != {} {
      WritingFields(p.s, i);
      FillFrame(p.s);
      if TxSpace(p.s.d) != 0 && !p.s.d.dynamic && !FillState(p.s).h.timedOut {
        FillKeepsTimeOut(p.s);
        FillStateStop(p.s);
      }
    }
  }

  lemma BnbPartStops(p: Pass, pend: set<Irq>)
    requires PassStop(p) && p.wake.None?
    ensures var q := BnbPart(p, pend);
            && q.more == p.more && (q.wake.None? ==> PassStop(q))
            && (q.more ==> PassStop(q))
  {
  }

  lemma BranchesStop(s: State, i: nat, pend: set<Irq>, clr: set<Irq>)
    requires i < |s.d.sent| && Running(s, i) && StopInTime(s.d, s.h) && PendOk(s, i, pend)
    ensures var p := Branches(s, pend, clr);
            !Astray(p.s.h) && (p.more || p.wake.None?) ==> PassStop(p)
  {
    hide RxPart, TxPart, BnbPart, PassStop, Running, AfterBranch, Receiving, Received;
    RxPartData(s, i, pend, clr);
    RxPartStops(s, i, pend, clr);
    var p1 := RxPart(s, pend, clr);
    TxBranchFits(s, i, p1, pend, clr);
    TxPartData(p1, i, pend);
    var p2 := TxPart(p1, pend);
    TxPartStops(p1, i, pend);
    BnbFrame(p2, pend);
    if !p2.s.h.timedOut {
      BnbPartStops(p2, pend);
    }
  }

  lemma ProcessStops(s: State, clkOk: bool)
    requires StopInv(s)
    ensures StopInv(Process(s, clkOk))
  {
    hide Process, Inv, StopInTime;
    ProcessKeepsInv(s, clkOk);
    SentStays(s, clkOk);
    if s.d.tx.Some? && !Astray(s.h) {
      BusyStops(s, clkOk);
    } else {
      NothingToStop(s, clkOk);
    }
  }

  lemma SentStays(s: State, clkOk: bool)
    requires Inv(s)
    ensures Process(s, clkOk).d.sent == s.d.sent && Process(s, clkOk).d.dynamic == s.d.dynamic
  {
    hide Process;
    ProcessKeepsCursor(s, clkOk);
  }

  lemma NothingToStop(s: State, clkOk: bool)
    requires Inv(s) && (s.d.tx.None? || Astray(s.h))
    ensures StopInTime(Process(s, clkOk).d, Process(s, clkOk).h)
  {
    hide Process, Inv;
    InvHasCursor(s);
    if s.d.tx.None? {
      IdleStays(s, clkOk);
    } else {
      ProcessKeepsAstray(s, clkOk);
    }
  }

  lemma IdleStays(s: State, clkOk: bool)
    requires Cursor(s) && s.d.tx.None?
    ensures Process(s, clkOk).d.tx.None?
  {
    hide ProcessPass, StartNext;
    PassKeepsCursor(s, clkOk);
  }

  lemma BusyStops(s: State, clkOk: bool)
    requires StopInv(s) && s.d.tx.Some? && !Astray(s.h)
    ensures StopInTime(Process(s, clkOk).d, Process(s, clkOk).h)
  {
    hide Branches, Finish, Running, Inv, StopInTime, PassStop, ReinitHw, PassData, PassIrqs, PendOk,
         Armed;
    var i := s.d.tx.value;
    PendFits(s);
    var p := ProcessPass(s, clkOk);
    var pend := Pend(s.h);
    if !IsErrorPend(pend) {
      BranchesStop(s, i, pend, {});
      BranchesData(s, i, pend, {});
      FinishStops(s, p, i, NoRxFullBit(s));
    } else if EarlyRxDone(s, pend) {
      BranchesStop(s, i, pend + {RxFull}, {TxError});
      BranchesData(s, i, pend + {RxFull}, {TxError});
      FinishStops(s, p, i, NoRxFullBit(s));
    } else {
      ErrorStops(s, clkOk);
    }
  }

  lemma ErrorStops(s: State, clkOk: bool)
    requires s.d.tx.Some?
    ensures var r := Finish(ErrorPass(s, clkOk), NoRxFullBit(s)); StopInTime(r.d, r.h)
  {
    hide ReinitHw, NoRxFullBit;
  }

  lemma FinishStops(s: State, p: Pass, i: nat, noRxFull: bool)
    requires PassData(s, p, i)
    requires !Astray(p.s.h) && (p.more || p.wake.None?) ==> PassStop(p)
    ensures var r := Finish(p, noRxFull); StopInTime(r.d, r.h)
  {
    hide StartNext, Boundary, PassData, WriteIisr;
    var s1 := State(p.s.d, WriteIisr(p.s.h, ClearWord(p, noRxFull)));
    IisrOnly(p.s.h, ClearWord(p, noRxFull));
    PassBoundary(s, p, i);
    if p.more {
      StartNextKeepsAstray(s1);
      StartNextFrame(s1);
      if !Astray(p.s.h) && !p.s.d.dynamic {
        SameBoundary(p.s, s1, i + 1);
        if !Astray(StartNext(s1).h) {
          BoundaryTx(s1, i + 1);
          StartStops(s1, i + 1);
        }
      }
    }
  }

  lemma PassBoundary(s: State, p: Pass, i: nat)
    requires PassData(s, p, i)
    ensures p.more && !p.s.h.timedOut ==> Boundary(p.s, i + 1)
  {
    hide Boundary, Running, Clean, AllDone;
  }

  lemma IisrOnly(h: Hw, v: set<Irq>)
    ensures WriteIisr(h, v) == h.(isr := WriteIisr(h, v).isr)
  {
  }

  lemma StepStops(s: State, e: Event, clkOk: bool)
    requires StopInv(s)
    ensures StopInv(Step(s, e, clkOk))
  {
    hide Process, Inv;
    StepKeepsInv(s, e, clkOk);
    if e.Interrupt? {
      ProcessStops(s, clkOk);
    } else {
      BusKeepsAstray(s, e, clkOk);
      BusKeepsCr(s, e, clkOk);
    }
  }

  lemma BusKeepsCr(s: State, e: Event, clkOk: bool)
    requires !e.Interrupt?
    ensures Step(s, e, clkOk).h.cr == s.h.cr
  {
  }

  lemma {:induction false} RunStops(s: State, events: seq<Event>, clkOk: bool)
    requires StopInv(s)
    ensures StopInv(Run(s, events, clkOk))
    decreases |events|
  {
    hide StopInv, Step;
    if events != [] {
      StepStops(s, events[0], clkOk);
      RunStops(Step(s, events[0], clkOk), events[1..], clkOk);
    }
  }

  /** In standard mode only a read can be alone. */
  lemma StandardNeedsRead(msgs: seq<Msg>, readBroken: bool)
    requires |msgs| == 1 && !UsesDynamic(msgs, readBroken) && ValidTransfer(msgs, false)
    ensures msgs[0].rd
  {
    assert ValidAt(msgs, false, 0);
  }

  lemma StartXferStops(s: State, msgs: seq<Msg>, c: Config, stuck: (bool, bool))
    requires msgs != [] && StartXferRet(s, c, stuck).Ok? && !s.d.blockRead
    requires ValidTransfer(msgs, UsesDynamic(msgs, c.readBroken))
    ensures StopInv(StartXfer(s, msgs, c, stuck))
  {
    hide ReinitHw, StartNext, Inv, ClearHistory;
    StartXferEstablishes(s, msgs, c, stuck);
    StartXferSetsCursor(s, msgs, c, stuck);
    var h1 := FreedHw(s.h, c, stuck);
    var t := State(Submit(s.d, msgs, c.readBroken), ReinitHw(ClearHistory(h1), c.clkOk));
    SubmittedIsBoundary(s.d, h1, msgs, c);
    if |msgs| == 1 && !UsesDynamic(msgs, c.readBroken) {
      StandardNeedsRead(msgs, c.readBroken);
    }
    StartNextFrame(t);
    if !t.d.dynamic && !Astray(StartNext(t).h) {
      StartStops(t, 0);
    }
    assert StartXfer(s, msgs, c, stuck) == StartNext(t);
  }

  // ----- Main results -----

  /** In every state of every standard-mode transfer that has not gone astray, STOP has
      been asked for if and only if the final byte of the last message has been read
      or written: never early, and never forgotten. */
  lemma StopExactlyAtTheEnd(s: State, msgs: seq<Msg>, c: Config, stuck: (bool, bool),
                            events: seq<Event>)
    requires msgs != [] && StartXferRet(s, c, stuck).Ok? && !s.d.blockRead
    requires ValidTransfer(msgs, UsesDynamic(msgs, c.readBroken))
    ensures var r := Run(StartXfer(s, msgs, c, stuck), events, c.clkOk);
            !r.d.dynamic && !Astray(r.h) && r.d.tx.Some? ==> (Msms !in r.h.cr <==> LastIsOut(r.d))
  {
    hide Inv, StartXfer, Run;
    StartXferStops(s, msgs, c, stuck);
    RunStops(StartXfer(s, msgs, c, stuck), events, c.clkOk);
  }

  /** Except that a last write with no data never asks for STOP in standard mode. */
  lemma EmptyLastWriteNeverStops(s: State, msgs: seq<Msg>, c: Config, stuck: (bool, bool),
                                 events: seq<Event>)
    requires msgs != [] && StartXferRet(s, c, stuck).Ok? && !s.d.blockRead
    requires ValidTransfer(msgs, false) && !UsesDynamic(msgs, c.readBroken)
    requires !msgs[|msgs| - 1].rd && msgs[|msgs| - 1].len == 0
    ensures var r := Run(StartXfer(s, msgs, c, stuck), events, c.clkOk);
            !Astray(r.h) && r.d.tx.Some? ==> Msms in r.h.cr
  {
    hide StartXfer, Run, StopInTime;
    StartXferStops(s, msgs, c, stuck);
    StartXferSetsCursor(s, msgs, c, stuck);
    var s1 := StartXfer(s, msgs, c, stuck);
    RunStops(s1, events, c.clkOk);
    RunKeepsCursor(s1, events, c.clkOk);
    var r := Run(s1, events, c.clkOk);
    if !Astray(r.h) && r.d.tx.Some? {
      EmptyIsNeverOut(r);
    }
  }

  lemma EmptyIsNeverOut(r: State)
    requires StopInv(r) && !Astray(r.h) && r.d.tx.Some? && !r.d.dynamic
    requires r.d.sent != [] && !r.d.sent[|r.d.sent| - 1].rd && r.d.sent[|r.d.sent| - 1].len == 0
    ensures Msms in r.h.cr
  {
  }
}
