/** Waiting for TX_EMPTY in standard mode: the handler itself never waits, so the words
    still in the TX FIFO when STOP is asked for can be counted; only the start of a
    message can wait in vain, and then success may be reported for what was not sent. */
module XiicWaits {
  import opened Wrappers
  import opened XiicDevice
  import opened XiicSpec
  import opened XiicEncode
  import opened XiicReading
  import opened XiicCursor
  import opened XiicTransfer
  import opened XiicHandler
  import opened XiicReads
  import opened XiicStop
  import opened XiicTimeOut
  import opened XiicProgress
  import opened XiicRuns

  // ----- The handler never waits -----

  /** If the transmit branch fills, it finds no reason to wait. */
  predicate FillsAtOnce(p: Pass, pend: set<Irq>) {
    pend * {TxEmpty, TxHalf} != {} && p.s.d.tx.Some? ==> NoWait(JobOf(p.s.d), TxView(p.s))
  }

  lemma TxPartNeedsNoWait(p: Pass, pend: set<Irq>)
    requires FillsAtOnce(p, pend)
    ensures var q := TxPart(p, pend).s.h;
            q.timedOut == p.s.h.timedOut && q.polls == p.s.h.polls && q.isr == p.s.h.isr
  {
    hide FillState, Advance;
    if pend * {TxEmpty, TxHalf} != {} && p.s.d.tx.Some? {
      FillStateNeedsNoWait(p.s);
    }
  }

  lemma BranchesNeedNoWait(s: State, pend: set<Irq>, clr: set<Irq>)
    requires Cursor(s) && HalfOff(s) && pend * {TxEmpty, TxHalf} <= Pend(s.h)
    ensures var p := Branches(s, pend, clr);
            p.s.h.timedOut == s.h.timedOut && p.s.h.polls == s.h.polls
  {
    hide RxPart, TxPart, BnbPart;
    var p1 := RxPart(s, pend, clr);
    RxPartFrame(s, pend, clr);
    RxFillsAtOnce(s, p1, pend, clr);
    TxPartNeedsNoWait(p1, pend);
    BnbFrame(TxPart(p1, pend), pend);
  }

  lemma RxFillsAtOnce(s: State, p1: Pass, pend: set<Irq>, clr: set<Irq>)
    requires Cursor(s) && HalfOff(s) && pend * {TxEmpty, TxHalf} <= Pend(s.h)
    requires p1 == RxPart(s, pend, clr)
    ensures FillsAtOnce(p1, pend)
  {
    hide ReadRx, TrimLen;
    if pend * {TxEmpty, TxHalf} != {} && s.d.tx.Some? {
      assert s.d.rx.None?;
      if !s.d.dynamic && s.d.nmsgs == 1 {
        LastHasHalfOff(s);
        assert TxEmpty in pend * {TxEmpty, TxHalf};
      }
    }
  }

  /** No branch of the handler takes a wait's outcome, or times out. */
  lemma PassNeverWaits(s: State, clkOk: bool)
    requires Cursor(s) && HalfOff(s)
    ensures var p := ProcessPass(s, clkOk);
            p.s.h.timedOut == s.h.timedOut && p.s.h.polls == s.h.polls
  {
    hide Branches, ReinitHw, Cursor, HalfOff, IsErrorPend, EarlyRxDone;
    BranchesNeedNoWait(s, Pend(s.h), {});
    assert (Pend(s.h) + {RxFull}) * {TxEmpty, TxHalf} <= Pend(s.h);
    BranchesNeedNoWait(s, Pend(s.h) + {RxFull}, {TxError});
    ReinitWaits(s.h, clkOk);
  }

  lemma ReinitWaits(h: Hw, clkOk: bool)
    ensures ReinitHw(h, clkOk).timedOut == h.timedOut && ReinitHw(h, clkOk).polls == h.polls
  {
    hide ReinitHw;
    ReinitFrame(h, clkOk);
  }

  lemma {:induction false} RunKeepsHalfOff(s: State, events: seq<Event>, clkOk: bool)
    requires Cursor(s) && HalfOff(s)
    ensures Cursor(Run(s, events, clkOk)) && HalfOff(Run(s, events, clkOk))
    decreases |events|
  {
    hide Step, Cursor, HalfOff;
    if events != [] {
      StepKeepsCursor(s, events[0], clkOk);
      StepKeepsHalfOff(s, events[0], clkOk);
      RunKeepsHalfOff(Step(s, events[0], clkOk), events[1..], clkOk);
    }
  }

  /** In every state of every run, in either mode: the branches of the handler wait for
      nothing and never time out. Only the start of a message may. */
  lemma HandlerNeverWaits(s: State, msgs: seq<Msg>, c: Config, stuck: (bool, bool),
                          events: seq<Event>)
    requires msgs != [] && StartXferRet(s, c, stuck).Ok?
    requires forall i :: 0 <= i < |msgs| && msgs[i].recvLen ==> msgs[i].rd
    ensures var r := Run(StartXfer(s, msgs, c, stuck), events, c.clkOk);
            var p := ProcessPass(r, c.clkOk);
            && p.s.h.timedOut == r.h.timedOut && p.s.h.polls == r.h.polls
            && (!p.more ==> Process(r, c.clkOk).h.timedOut == r.h.timedOut)
  {
    hide StartXfer, Run, ProcessPass, Cursor, HalfOff;
    StartXferSetsCursor(s, msgs, c, stuck);
    StartXferSetsHalfOff(s, msgs, c, stuck);
    RunKeepsHalfOff(StartXfer(s, msgs, c, stuck), events, c.clkOk);
    PassNeverWaits(Run(StartXfer(s, msgs, c, stuck), events, c.clkOk), c.clkOk);
  }

  // ----- What is still in the FIFO when STOP is asked for -----

  /** Filling up to the last byte of the last message, with TX_EMPTY latched or not. */
  lemma {:induction false} FillBehind(j: TxJob, x: TxIo, n: nat)
    requires !j.dynamic && j.last && 0 < n == j.m.len - x.pos && x.level + n <= 16
    requires !FillBytes(j, x, n).timedOut
    ensures FillBytes(j, x, n).behind == if TxEmpty in x.isr then x.level + n - 1 else 0
    decreases n
  {
    if !FillGivesUp(j, x) {
      if n == 1 {
        assert FillBytes(j, FillByte(j, x), 0) == FillByte(j, x);
      } else {
        FillBehind(j, FillByte(j, x), n - 1);
      }
    }
  }

  /** Filling that stops short of it. */
  lemma {:induction false} FillShort(j: TxJob, x: TxIo, n: int)
    requires n < j.m.len - x.pos
    ensures FillBytes(j, x, n).behind == x.behind
    decreases n
  {
    if n > 0 {
      FillShort(j, FillByte(j, x), n - 1);
    }
  }

  lemma FillStateBehind(s: State)
    requires !s.d.dynamic && s.d.nmsgs == 1 && s.d.txPos < TxMsg(s.d).len
    requires s.h.txLevel <= 16 && !FillState(s).h.timedOut
    ensures var r, left := FillState(s).h, TxMsg(s.d).len - s.d.txPos;
            r.behind == if left > TxFifoSpace(s.h) || TxFifoSpace(s.h) == 0 then s.h.behind
                        else if TxEmpty in s.h.isr then s.h.txLevel + left - 1 else 0
  {
    hide FillBytes;
    var j, x, left := JobOf(s.d), TxView(s), TxMsg(s.d).len - s.d.txPos;
    var n := Min(TxFifoSpace(s.h), left);
    if n == left {
      FillBehind(j, x, left);
    } else {
      FillShort(j, x, n);
    }
  }

  /** How a last write of at least one byte is begun in standard mode: when it fits at once,
      STOP is asked for behind the whole message, address included, unless the wait
      before its last byte is a real one. */
  lemma StartBehind(s: State, i: nat)
    requires Boundary(s, i) && !s.d.dynamic && s.d.nmsgs == 1 && !Astray(StartNext(s).h)
    requires !s.d.sent[i].rd && s.d.sent[i].len > 0
    ensures var r, len := StartNext(s), s.d.sent[i].len;
            && r.d.txPos == Min(FIRST_CHUNK, len) && r.d.prevTx
            && (len <= FIRST_CHUNK ==>
                  r.h.behind == if s.d.prevTx || TxEmpty in s.h.isr then len else 0)
  {
    hide StartSend, StartRecv, Boundary, Armed, Writing, Running;
    BoundaryTx(s, i);
    StartNextBegins(s, i);
    StartNextFrame(s);
    var t := Opened(s);
    BoundaryOpens(s, i);
    OpeningFields(t, i);
    SendBehind(t, i);
  }

  lemma SendBehind(s: State, i: nat)
    requires Opening(s, i) && !s.d.dynamic && s.d.nmsgs == 1 && !StartSend(s).h.timedOut
    requires !s.d.sent[i].rd && s.d.sent[i].len > 0
    ensures var r, len := StartSend(s), s.d.sent[i].len;
            && r.d.prevTx
            && (len <= FIRST_CHUNK ==>
                  r.h.behind == if s.d.prevTx || TxEmpty in s.h.isr then len else 0)
  {
    hide FillState, SendStandardHw, SendStandardEndHw, Poll, PollOk, StartSend, Writing;
    OpeningFields(s, i);
    StandardSend(s);
    WaitFields(s.h);
    WaitSees(s.h);
    if !StartGivesUp(s) {
      var h := AfterWait(s);
      AddressOut(s, h, i);
      var t := State(s.d, SendStandardHw(h, s.d.sent[i]));
      SendHwFrame(h, s.d.sent[i], true, false);
      SendHwFrame(FillState(t).h, s.d.sent[i], true, Msms in h.cr);
      FillFrame(t);
      if s.d.sent[i].len <= FIRST_CHUNK {
        FillStateBehind(t);
      }
    }
  }

  lemma WaitSees(h: Hw)
    ensures PollOk(h) ==> TxEmpty in Poll(h).isr
  {
  }

  /** What a last write of len bytes leaves in the FIFO behind its STOP: nothing but the
      rest of its last chunk, or the whole of a message that fits at once; unless that
      one follows a read and the wait before its last byte was a real one. */
  predicate LeftBehind(len: nat, afterWrite: bool, behind: nat) {
    if len > FIRST_CHUNK then behind == (len - 1) % FIRST_CHUNK
    else behind == len || (!afterWrite && behind == 0)
  }

  /** prev_msg_tx tells the direction of the current message, once it is started. */
  predicate PrevKnown(d: Drv) {
    d.tx.Some? ==> d.prevTx == !TxMsg(d).rd
  }

  predicate AfterWrite(sent: seq<Msg>) {
    |sent| >= 2 && !sent[|sent| - 2].rd
  }

  /** The last message, a write in standard mode, goes out in chunks of 15 bytes. */
  predicate InChunks(d: Drv, h: Hw) {
    d.tx.Some? && !d.dynamic && d.nmsgs == 1 && !TxMsg(d).rd ==>
      && (d.txPos % FIRST_CHUNK == 0 || d.txPos == TxMsg(d).len)
      && (0 < d.txPos == TxMsg(d).len ==> LeftBehind(TxMsg(d).len, AfterWrite(d.sent), h.behind))
  }

  predicate BehindInv(s: State) {
    Inv(s) && (!Astray(s.h) ==> PrevKnown(s.d) && InChunks(s.d, s.h))
  }

  lemma ChunkArithmetic(len: int, pos: int)
    requires FIRST_CHUNK < len && 0 <= pos < len <= pos + FIRST_CHUNK && pos % FIRST_CHUNK == 0
    ensures len - pos - 1 == (len - 1) % FIRST_CHUNK
  {
  }

  /** A fill by the handler: the FIFO is empty, and TX_EMPTY still latched. */
  lemma HandlerFillKeepsChunks(s: State)
    requires s.d.tx.Some? && !s.d.dynamic && s.d.nmsgs == 1 && !TxMsg(s.d).rd
    requires s.h.txLevel == 0 && TxEmpty in s.h.isr && InChunks(s.d, s.h)
    requires FIRST_CHUNK <= s.d.txPos < TxMsg(s.d).len && !s.h.timedOut
    ensures var r := FillState(s);
            InChunks(r.d, r.h) && r.d.prevTx == s.d.prevTx && r.d.sent == s.d.sent
  {
    hide FillBytes, InChunks, FillState, LeftBehind;
    ChunksFields(s.d, s.h);
    FillFrame(s);
    FillStateNeedsNoWait(s);
    var n := Min(TxFifoSpace(s.h), TxMsg(s.d).len - s.d.txPos);
    FillsBy(s, n);
    FillStateBehind(s);
    FilledChunk(s, FillState(s));
  }

  lemma ChunksFields(d: Drv, h: Hw)
    requires d.tx.Some? && !d.dynamic && d.nmsgs == 1 && !TxMsg(d).rd && InChunks(d, h)
    ensures d.txPos % FIRST_CHUNK == 0 || d.txPos == TxMsg(d).len
  {
  }

  lemma FillsBy(s: State, n: nat)
    requires n == Min(TxFifoSpace(s.h), TxMsg(s.d).len - s.d.txPos)
    requires NoWait(JobOf(s.d), TxView(s)) && !s.d.dynamic
    ensures FillState(s).d.txPos == s.d.txPos + n
  {
    FillMovesAnyway(JobOf(s.d), TxView(s), n);
  }

  lemma {:induction false} FillMovesAnyway(j: TxJob, x: TxIo, n: nat)
    requires NoWait(j, x)
    ensures FillBytes(j, x, n).pos == x.pos + n
    decreases n
  {
    if n > 0 {
      FillMovesAnyway(j, FillByte(j, x), n - 1);
    }
  }

  lemma FilledChunk(s: State, r: State)
    requires s.d.tx.Some? && !s.d.dynamic && s.d.nmsgs == 1 && !TxMsg(s.d).rd
    requires FIRST_CHUNK <= s.d.txPos < TxMsg(s.d).len && s.d.txPos % FIRST_CHUNK == 0
    requires r.d == s.d.(txPos := r.d.txPos, overrun := r.d.overrun)
    requires r.d.txPos == s.d.txPos + Min(FIRST_CHUNK, TxMsg(s.d).len - s.d.txPos)
    requires TxMsg(s.d).len - s.d.txPos <= FIRST_CHUNK ==> r.h.behind == TxMsg(s.d).len - s.d.txPos - 1
    ensures InChunks(r.d, r.h)
  {
    if TxMsg(s.d).len - s.d.txPos <= FIRST_CHUNK {
      ChunkArithmetic(TxMsg(s.d).len, s.d.txPos);
    }
  }

  /** The branches of a pass that does not go on. */
  lemma BranchesKeepChunks(s: State, pend: set<Irq>, clr: set<Irq>)
    requires BehindInv(s) && !Astray(s.h) && s.d.tx.Some? && s.d.tx.value < |s.d.sent|
    requires PendOk(s, s.d.tx.value, pend) && Running(s, s.d.tx.value)
    ensures var p := Branches(s, pend, clr);
            !p.more && p.wake.None? ==> PrevKnown(p.s.d) && InChunks(p.s.d, p.s.h)
    ensures var p := Branches(s, pend, clr); p.more ==> p.s.d.prevTx == s.d.prevTx
  {
    hide RxPart, TxPart, BnbPart, Inv, Running, PendOk, InChunks, PrevKnown;
    var i := s.d.tx.value;
    var p1 := RxPart(s, pend, clr);
    InvHasCursor(s);
    RxKeepsChunks(s, pend, clr);
    RxPartKeepsCursor(s, pend, clr);
    PendNoTx(s, i, pend);
    if pend * {TxEmpty, TxHalf} == {} || p1.jumped {
      NoTxPart(p1, pend);
      BnbKeepsChunks(p1, pend);
    } else {
      RxPartIdle(s, i, pend, clr);
      TxKeepsChunks(s, i, p1, pend);
      BnbKeepsChunks(TxPart(p1, pend), pend);
    }
  }

  lemma PendNoTx(s: State, i: nat, pend: set<Irq>)
    requires i < |s.d.sent| && PendOk(s, i, pend) && Cursor(s) && s.d.tx == Some(i)
    ensures pend * {TxEmpty, TxHalf} != {} ==> s.d.rx.None? && !TxMsg(s.d).rd && !s.d.sent[i].rd
    ensures pend * {TxEmpty, TxHalf} != {} && !s.d.dynamic && s.d.nmsgs == 1 ==> TxEmpty in pend
    ensures TxEmpty in pend ==> s.h.txLevel == 0 && TxEmpty in s.h.isr
  {
  }

  lemma RxPartIdle(s: State, i: nat, pend: set<Irq>, clr: set<Irq>)
    requires pend * {TxEmpty, TxHalf} != {} && !RxPart(s, pend, clr).jumped && s.d.rx.None?
    ensures RxPart(s, pend, clr) == Pass(s, clr, false, false, None)
  {
    hide ReadRx, TrimLen;
  }

  lemma RxKeepsChunks(s: State, pend: set<Irq>, clr: set<Irq>)
    requires CursorOf(s.d) && PrevKnown(s.d) && InChunks(s.d, s.h)
    ensures var p := RxPart(s, pend, clr);
            && p.s.d.prevTx == s.d.prevTx && p.wake.None?
            && (!p.more ==> PrevKnown(p.s.d) && InChunks(p.s.d, p.s.h))
  {
    hide ReadRx, TrimLen, LeftBehind;
    ReadRxKeepsDirection(RxView(s), s.d.dynamic, s.d.nmsgs == 1);
    TrimKeepsCr(ReadRx(RxView(s), s.d.dynamic, s.d.nmsgs == 1));
  }

  lemma BnbKeepsChunks(p: Pass, pend: set<Irq>)
    ensures var q := BnbPart(p, pend);
            && q.s.d.prevTx == p.s.d.prevTx && q.more == p.more
            && (q.wake.None? && p.wake.None? && p.s.d.tx.Some? ==> q == p)
  {
    BnbFrame(p, pend);
  }

  lemma TxKeepsChunks(s: State, i: nat, p: Pass, pend: set<Irq>)
    requires p == Pass(s, p.clr, false, false, None) && pend * {TxEmpty, TxHalf} != {}
    requires Running(s, i) && s.d.tx == Some(i) && s.d.rx.None? && !TxMsg(s.d).rd && i < |s.d.sent|
    requires !s.d.sent[i].rd
    requires !s.d.dynamic && s.d.nmsgs == 1 ==> TxEmpty in pend
    requires TxEmpty in pend ==> s.h.txLevel == 0 && TxEmpty in s.h.isr
    requires PrevKnown(s.d) && InChunks(s.d, s.h) && !s.h.timedOut
    ensures var q := TxPart(p, pend);
            && q.s.d.prevTx == s.d.prevTx && q.wake.None? && q.s.d.tx.Some?
            && (!q.more ==> PrevKnown(q.s.d) && InChunks(q.s.d, q.s.h))
  {
    hide FillState, InChunks, WordsUpTo, EncodeUpTo;
    WritingNow(s, i);
    FillFrame(s);
    if TxSpace(s.d) != 0 {
      if !s.d.dynamic && s.d.nmsgs == 1 {
        NotYetOut(s, i);
        HandlerFillKeepsChunks(s);
      } else {
        NoChunks(FillState(s).d, FillState(s).h);
      }
    } else {
      SameChunks(s.d, s.h, IrqDis(s.h, {TxHalf}));
    }
  }

  lemma NotYetOut(s: State, i: nat)
    requires Running(s, i) && !s.d.sent[i].rd && TxSpace(s.d) != 0 && TxMsg(s.d) == s.d.sent[i]
    ensures FIRST_CHUNK <= s.d.txPos < TxMsg(s.d).len
  {
    hide EncodeUpTo;
    WritingNow(s, i);
  }

  lemma WritingNow(s: State, i: nat)
    requires Running(s, i) && !s.d.sent[i].rd
    ensures i < |s.d.sent| && TxMsg(s.d) == s.d.sent[i]
    ensures Min(FIRST_CHUNK, s.d.sent[i].len) <= s.d.txPos <= s.d.sent[i].len
  {
    hide EncodeUpTo, History;
    WritingFields(s, i);
  }

  lemma NoChunks(d: Drv, h: Hw)
    requires d.dynamic || d.nmsgs != 1
    ensures InChunks(d, h)
  {
  }

  lemma SameChunks(d: Drv, h: Hw, g: Hw)
    requires InChunks(d, h) && g.behind == h.behind
    ensures InChunks(d, g)
  {
  }

  /** The start of a message puts it in order. */
  lemma StartChunks(s: State, i: nat)
    requires Boundary(s, i) && !Astray(StartNext(s).h)
    requires i > 0 ==> s.d.prevTx == !s.d.sent[i - 1].rd
    requires i == 0 && !s.d.dynamic ==> s.d.nmsgs > 1 || s.d.sent[0].rd
    ensures var r := StartNext(s); PrevKnown(r.d) && InChunks(r.d, r.h)
  {
    hide StartNext, Boundary, InChunks, PrevKnown;
    BoundaryTx(s, i);
    StartNextFrame(s);
    StartPrev(s);
    PrevSet(s, StartNext(s));
    BoundaryCount(s, i);
    if !s.d.dynamic && s.d.nmsgs == 1 && !s.d.sent[i].rd {
      StartNextBegins(s, i);
      LastChunks(s, StartNext(s), i);
    } else {
      OtherChunks(s, StartNext(s));
    }
  }

  lemma BoundaryCount(s: State, i: nat)
    requires Boundary(s, i)
    ensures s.d.nmsgs == |s.d.sent| - i
  {
  }

  lemma StartPrev(s: State)
    requires s.d.tx.Some?
    ensures !StartNext(s).h.timedOut ==> StartNext(s).d.prevTx == !TxMsg(s.d).rd
  {
    hide RecvDynamicHw, RecvStandardHw, FillState, SendDynamicHw, SendStandardHw, SendStandardEndHw,
         Poll, PollOk, IrqClrEn;
    GivesUpTimesOut(OpenLog(s.h), OpenLog(s.h));
    GivesUpTimesOut(OpenLog(s.h), IrqDis(OpenLog(s.h), {TxHalf, TxEmpty}));
  }

  lemma PrevSet(s: State, r: State)
    requires SameCursor(s.d, r.d) && s.d.tx.Some?
    requires r.d.prevTx == !TxMsg(s.d).rd
    ensures PrevKnown(r.d)
  {
  }

  lemma OtherChunks(s: State, r: State)
    requires SameCursor(s.d, r.d) && s.d.tx.Some?
    requires s.d.dynamic || s.d.nmsgs != 1 || TxMsg(s.d).rd
    ensures InChunks(r.d, r.h)
  {
  }

  lemma LastChunks(s: State, r: State, i: nat)
    requires Boundary(s, i) && r == StartNext(s) && !Astray(r.h) && !s.d.dynamic && s.d.nmsgs == 1
    requires SameCursor(s.d, r.d) && !s.d.sent[i].rd && TxMsg(s.d) == s.d.sent[i]
    requires i > 0 && s.d.prevTx == !s.d.sent[i - 1].rd && i == |s.d.sent| - 1
    requires r.d.txPos == Min(FIRST_CHUNK, s.d.sent[i].len)
    ensures InChunks(r.d, r.h)
  {
    hide StartNext, Boundary;
    if s.d.sent[i].len > 0 {
      StartBehind(s, i);
    }
  }

  lemma ProcessKeepsChunks(s: State, clkOk: bool)
    requires BehindInv(s)
    ensures BehindInv(Process(s, clkOk))
  {
    hide Process, Inv, PrevKnown, InChunks, ProcessPass, NoRxFullBit;
    ProcessKeepsInv(s, clkOk);
    ProcessKeepsAstray(s, clkOk);
    InvHasCursor(s);
    if !Astray(Process(s, clkOk).h) {
      if s.d.tx.None? {
        IdleHasNoRx(s);
        IdleProcessFrame(s, clkOk);
        NoTransfer(Process(s, clkOk));
      } else {
        BusyChunks(s, clkOk);
      }
    }
  }

  lemma NoTransfer(s: State)
    requires s.d.tx.None?
    ensures PrevKnown(s.d) && InChunks(s.d, s.h)
  {
  }

  lemma BusyChunks(s: State, clkOk: bool)
    requires BehindInv(s) && !Astray(s.h) && s.d.tx.Some? && !Astray(Process(s, clkOk).h)
    ensures var r := Process(s, clkOk); PrevKnown(r.d) && InChunks(r.d, r.h)
  {
    hide Process, Inv, PrevKnown, InChunks, ProcessPass, NoRxFullBit, Boundary, StartNext;
    InvHasCursor(s);
    PassKeepsCursor(s, clkOk);
    PassChunks(s, clkOk);
    ProcessIs(s, clkOk);
    var i, p := s.d.tx.value, ProcessPass(s, clkOk);
    var s1 := State(p.s.d, WriteIisr(p.s.h, ClearWord(p, NoRxFullBit(s))));
    StartNextFrame(s1);
    if p.wake.Some? {
      NoTransfer(Process(s, clkOk));
    } else if p.more {
      RacePass(s, clkOk);
      SameBoundary(p.s, s1, i + 1);
      FinishFields(p, NoRxFullBit(s), StartNext(s1));
      PrevIs(s, i);
      StartChunks(s1, i + 1);
      SameDrv(StartNext(s1), Process(s, clkOk));
    } else {
      SameChunks(p.s.d, p.s.h, s1.h);
      SameDrv(s1, Process(s, clkOk));
    }
  }

  lemma PrevIs(s: State, i: nat)
    requires PrevKnown(s.d) && Cursor(s) && s.d.tx == Some(i)
    ensures i < |s.d.sent| && s.d.prevTx == !s.d.sent[i].rd
  {
  }

  lemma SameDrv(s: State, r: State)
    requires PrevKnown(s.d) && InChunks(s.d, s.h)
    requires r.d == s.d.(warned := r.d.warned) && r.h.behind == s.h.behind
    ensures PrevKnown(r.d) && InChunks(r.d, r.h)
  {
  }

  lemma PassChunks(s: State, clkOk: bool)
    requires BehindInv(s) && !Astray(s.h) && s.d.tx.Some?
    ensures var p := ProcessPass(s, clkOk);
            && (!p.more && p.wake.None? ==> PrevKnown(p.s.d) && InChunks(p.s.d, p.s.h))
            && (p.more ==> p.s.d.prevTx == s.d.prevTx)
  {
    hide Branches, Inv, PrevKnown, InChunks, Running, PendOk, Armed, ReinitHw;
    PendFits(s);
    var pend := Pend(s.h);
    if !IsErrorPend(pend) {
      BranchesKeepChunks(s, pend, {});
    } else if EarlyRxDone(s, pend) {
      BranchesKeepChunks(s, pend + {RxFull}, {TxError});
    }
  }

  lemma StepKeepsChunks(s: State, e: Event, clkOk: bool)
    requires BehindInv(s)
    ensures BehindInv(Step(s, e, clkOk))
  {
    hide Process, Inv, PrevKnown, InChunks;
    StepKeepsInv(s, e, clkOk);
    if e.Interrupt? {
      ProcessKeepsChunks(s, clkOk);
    } else {
      BusKeepsAstray(s, e, clkOk);
      BusKeepsBehind(s, e, clkOk);
      if !Astray(s.h) {
        SameChunks(s.d, s.h, Step(s, e, clkOk).h);
      }
    }
  }

  lemma BusKeepsBehind(s: State, e: Event, clkOk: bool)
    requires !e.Interrupt?
    ensures Step(s, e, clkOk).h.behind == s.h.behind
  {
  }

  lemma {:induction false} RunKeepsChunks(s: State, events: seq<Event>, clkOk: bool)
    requires BehindInv(s)
    ensures BehindInv(Run(s, events, clkOk))
    decreases |events|
  {
    hide BehindInv, Step;
    if events != [] {
      StepKeepsChunks(s, events[0], clkOk);
      RunKeepsChunks(Step(s, events[0], clkOk), events[1..], clkOk);
    }
  }

  lemma StartXferChunks(s: State, msgs: seq<Msg>, c: Config, stuck: (bool, bool))
    requires msgs != [] && StartXferRet(s, c, stuck).Ok? && !s.d.blockRead
    requires ValidTransfer(msgs, UsesDynamic(msgs, c.readBroken))
    ensures BehindInv(StartXfer(s, msgs, c, stuck))
  {
    hide ReinitHw, StartNext, Inv, ClearHistory, Boundary, Submit, UsesDynamic, PrevKnown, InChunks;
    StartXferEstablishes(s, msgs, c, stuck);
    var h1 := FreedHw(s.h, c, stuck);
    var t := State(Submit(s.d, msgs, c.readBroken), ReinitHw(ClearHistory(h1), c.clkOk));
    SubmittedIsBoundary(s.d, h1, msgs, c);
    SubmitFields(s.d, msgs, c);
    BoundaryTx(t, 0);
    if |msgs| == 1 && !UsesDynamic(msgs, c.readBroken) {
      StandardNeedsRead(msgs, c.readBroken);
    }
    assert StartXfer(s, msgs, c, stuck) == StartNext(t);
    if !Astray(StartNext(t).h) {
      StartChunks(t, 0);
    }
  }

  /** In every run in standard mode that has not gone astray: once the last message, a
      write, is all out, STOP has been asked for, with exactly so many of its words still
      in the TX FIFO behind it. So STOP goes last only in name. */
  lemma StopOvertakes(s: State, msgs: seq<Msg>, c: Config, stuck: (bool, bool),
                      events: seq<Event>)
    requires msgs != [] && StartXferRet(s, c, stuck).Ok? && !s.d.blockRead
    requires ValidTransfer(msgs, UsesDynamic(msgs, c.readBroken))
    ensures var r, last := Run(StartXfer(s, msgs, c, stuck), events, c.clkOk), msgs[|msgs| - 1];
            !r.d.dynamic && !Astray(r.h) && LastIsOut(r.d) && !last.rd ==>
              Msms !in r.h.cr && LeftBehind(last.len, AfterWrite(msgs), r.h.behind)
    ensures var r, last := Run(StartXfer(s, msgs, c, stuck), events, c.clkOk), msgs[|msgs| - 1];
            !r.d.dynamic && !Astray(r.h) && LastIsOut(r.d) && !last.rd && last.len > FIRST_CHUNK ==>
              (r.h.behind == 0 <==> last.len % FIRST_CHUNK == 1)
  {
    hide Inv, StartXfer, Run, InChunks, LeftBehind, AfterWrite, UsesDynamic;
    StartXferStops(s, msgs, c, stuck);
    StartXferSetsCursor(s, msgs, c, stuck);
    RunStops(StartXfer(s, msgs, c, stuck), events, c.clkOk);
    StartXferChunks(s, msgs, c, stuck);
    RunKeepsChunks(StartXfer(s, msgs, c, stuck), events, c.clkOk);
    RunKeepsCursor(StartXfer(s, msgs, c, stuck), events, c.clkOk);
    var r := Run(StartXfer(s, msgs, c, stuck), events, c.clkOk);
    if !r.d.dynamic && !Astray(r.h) && LastIsOut(r.d) && !msgs[|msgs| - 1].rd {
      LastWriteIsOut(r);
      OneMoreThanChunks(msgs[|msgs| - 1].len, AfterWrite(msgs), r.h.behind);
    }
  }

  lemma LastWriteIsOut(r: State)
    requires Inv(r) && !Astray(r.h) && InChunks(r.d, r.h) && LastIsOut(r.d) && !r.d.dynamic
    requires r.d.sent != [] && !r.d.sent[|r.d.sent| - 1].rd
    ensures LeftBehind(r.d.sent[|r.d.sent| - 1].len, AfterWrite(r.d.sent), r.h.behind)
  {
    hide Encode, Reading, LeftBehind, AfterWrite, EncodeUpTo;
    LastMessage(r, r.d.tx.value);
  }

  lemma OneMoreThanChunks(len: nat, afterWrite: bool, behind: nat)
    requires LeftBehind(len, afterWrite, behind)
    ensures len > FIRST_CHUNK ==> (behind == 0 <==> len % FIRST_CHUNK == 1)
  {
  }

  // ----- A start that waits in vain -----

  /** A read in progress, one message before the last, with nothing latched. */
  predicate ReadBeforeLast(s: State, slave: Slave) {
    && CalmRead(s, 0, slave) && RxSpace(s.d) > 0 && s.h.isr == {} && s.d.nmsgs == 2
    && !s.d.prevTx && !s.d.dynamic && !Astray(s.h) && s.h.polls != [] && !s.h.polls[0]
  }

  /** A watermark interrupt that does not end the read. */
  lemma QuietRound(s: State, slave: Slave)
    requires ReadBeforeLast(s, slave)
    ensures var t := State(s.d, Latch(Feed(s.h, slave), {RxFull}));
            && CalmRead(t, 0, slave) && t.h.isr == {RxFull} && |t.h.rxFifo| == Watermark(t.h)
            && t.d == s.d && !Astray(t.h) && t.h.polls == s.h.polls && RxFull in t.h.ier
    ensures var t := State(s.d, Latch(Feed(s.h, slave), {RxFull}));
            Left(ReadRx(RxView(t), false, false)) != 0 ==>
              var r := Process(t, true);
              && ReadBeforeLast(r, slave) && !RxMsg(r.d).recvLen && r.d.sent == s.d.sent
              && (!RxMsg(s.d).recvLen ==> RxSpace(r.d) < RxSpace(s.d))
  {
    hide Process, Feed, ReadRx, Receiving, Armed, Cursor, RxPart, Finish;
    FeedReachesWatermark(s, 0, slave);
    FeedFrame(s, slave);
    var u := State(s.d, Feed(s.h, slave));
    var t := State(s.d, Latch(u.h, {RxFull}));
    assert Pend(u.h) == {};
    CalmAgain(u, t, 0, slave);
    CalmEnables(u, 0, slave);
    if Left(ReadRx(RxView(t), false, false)) != 0 {
      RipeProgress(t, 0, slave, true);
      CalmIsOpen(t, slave);
      GoesOnReading(t, 0, slave, true);
      OnlyReadBranch(t, true);
      OpenPass(t, ReadRx(RxView(t), false, false));
      QuietFields(t, slave);
    }
  }

  lemma CalmIsOpen(t: State, slave: Slave)
    requires CalmRead(t, 0, slave)
    ensures t.d.rx == t.d.tx == Some(0) && t.d.rx.Some? && 0 < |t.d.msgs|
    ensures TxMsg(t.d) == RxMsg(t.d) && CursorOf(t.d)
  {
    hide Reading, History;
  }

  /** What is left of the round. */
  lemma QuietFields(t: State, slave: Slave)
    requires t.d.rx.Some? && t.d.rx.value < |t.d.msgs| && t.h.isr == {RxFull}
    ensures var w := WithRx(t, ReadRx(RxView(t), false, false));
            var r := State(w.d, WriteIisr(w.h, {RxFull}));
            && r.h.isr == {} && r.d.nmsgs == t.d.nmsgs && r.d.prevTx == t.d.prevTx
            && r.d.dynamic == t.d.dynamic && Astray(r.h) == Astray(t.h) && r.h.polls == t.h.polls
            && r.d.sent == t.d.sent
  {
    hide ReadRx;
  }

  lemma {:induction false} FeedFrame(s: State, slave: Slave)
    ensures var h := Feed(s.h, slave);
            h == s.h.(rxFifo := h.rxFifo, logs := h.logs, bus := h.bus, txLevel := h.txLevel)
    decreases Watermark(s.h) - |s.h.rxFifo|
  {
    if CanClock(s.h) {
      FeedFrame(State(s.d, Clock(s.h, slave.byte(|s.h.logs[|s.h.logs| - 1].bytes|))), slave);
    }
  }

  /** The read comes to its last watermark interrupt. */
  predicate LastInterrupt(t: State, slave: Slave) {
    && CalmRead(t, 0, slave) && t.h.isr == {RxFull} && |t.h.rxFifo| == Watermark(t.h)
    && Left(ReadRx(RxView(t), false, false)) == 0 && t.d.nmsgs == 2 && !t.d.prevTx
    && !t.d.dynamic && !Astray(t.h) && t.h.polls != [] && !t.h.polls[0] && RxFull in t.h.ier
  }

  lemma {:induction false} ReadReachesEnd(s: State, slave: Slave) returns (events: seq<Event>)
    requires ReadBeforeLast(s, slave)
    ensures var t := Run(s, events, true); LastInterrupt(t, slave) && t.d.sent == s.d.sent
    decreases RxMsg(s.d).recvLen, RxSpace(s.d)
  {
    hide Process, Feed, ReadRx, CalmRead, Latch;
    QuietRound(s, slave);
    var feed := FeedIsRun(s, slave);
    var t := State(s.d, Latch(Feed(s.h, slave), {RxFull}));
    RunThen(s, feed, IrqBits({RxFull}));
    if Left(ReadRx(RxView(t), false, false)) == 0 {
      events := feed + [IrqBits({RxFull})];
    } else {
      RunInterrupt(s, feed, {RxFull});
      var first := feed + [IrqBits({RxFull})] + [Interrupt];
      var rest := ReadReachesEnd(Process(t, true), slave);
      events := first + rest;
      RunAppends(s, first, rest);
    }
  }

  /** The start of the write fills all but its last byte, and waits in vain for it. */
  lemma StartTimesOut(s: State, i: nat)
    requires Boundary(s, i) && !s.d.dynamic && s.d.nmsgs == 1 && !s.d.prevTx
    requires TxEmpty !in s.h.isr && s.h.polls != [] && !s.h.polls[0]
    requires !s.d.sent[i].rd && 0 < s.d.sent[i].len <= FIRST_CHUNK
    ensures var r := StartNext(s);
            && r.h.timedOut && r.d.txPos == s.d.sent[i].len && r.d.rx.None? && !r.d.blockRead
            && Bnb in r.h.ier && r.h.isr <= s.h.isr
  {
    hide StartRecv, SendStandardHw, SendStandardEndHw, FillState, Boundary, Writing;
    BoundaryTx(s, i);
    BoundaryOpens(s, i);
    var t := Opened(s);
    OpeningFields(t, i);
    StandardSend(t);
    AddressOut(t, t.h, i);
    var u := State(t.d, SendStandardHw(t.h, s.d.sent[i]));
    SendHwFrame(t.h, s.d.sent[i], true, false);
    FillTimesOut(JobOf(u.d), TxView(u), s.d.sent[i].len);
    FillIs(u, s.d.sent[i].len);
    SendHwFrame(FillState(u).h, s.d.sent[i], true, Msms in t.h.cr);
    SendEndIsr(FillState(u).h, Msms in t.h.cr);
    FillFrame(u);
    BoundaryFlags(s, i);
  }

  lemma BoundaryFlags(s: State, i: nat)
    requires Boundary(s, i)
    ensures s.d.rx.None? && !s.d.blockRead
  {
  }

  lemma SendEndIsr(h: Hw, wasMaster: bool)
    ensures SendStandardEndHw(h, wasMaster).isr <= h.isr
  {
  }

  lemma FillIs(u: State, n: nat)
    requires n == Min(TxFifoSpace(u.h), TxMsg(u.d).len - u.d.txPos)
    ensures var y, r := FillBytes(JobOf(u.d), TxView(u), n), FillState(u);
            r.h.timedOut == y.timedOut && r.d.txPos == y.pos && r.h.isr == y.isr
  {
    hide FillBytes;
  }

  lemma {:induction false} FillTimesOut(j: TxJob, x: TxIo, n: nat)
    requires !j.dynamic && j.last && 0 < n == j.m.len - x.pos
    requires TxEmpty !in x.isr && x.polls != [] && !x.polls[0]
    ensures var y := FillBytes(j, x, n); y.timedOut && y.pos == j.m.len && y.isr == x.isr
    decreases n
  {
    if n > 1 {
      FillTimesOut(j, FillByte(j, x), n - 1);
    }
  }

  /** The last interrupt of the read starts the write, in vain. */
  lemma WriteTimesOut(t: State, slave: Slave)
    requires LastInterrupt(t, slave) && |t.d.sent| == 2
    requires !t.d.sent[1].rd && 0 < t.d.sent[1].len <= FIRST_CHUNK
    ensures var r := Process(t, true);
            && r.h.timedOut && r.d.tx == Some(1) && r.d.rx.None? && r.d.nmsgs == 1 && !r.d.blockRead
            && TxSpace(r.d) == 0 && r.h.isr == {} && Bnb in r.h.ier && r.d.completed == 0
            && r.d.sent == t.d.sent
  {
    hide Process, ReadRx, Boundary, StartNext, RxPart, Reading, History;
    CalmIsOpen(t, slave);
    ReceivingRx(t, 0);
    assert Pend(t.h) == {RxFull};
    OnlyReadBranch(t, true);
    ReadEnds(t, 0);
    ReadPartEnds(t);
    var p := RxPart(t, {RxFull}, {});
    RxPartFrame(t, {RxFull}, {});
    RxKeepsMode(t, {RxFull}, {});
    var s1 := State(p.s.d, WriteIisr(p.s.h, p.clr));
    assert s1.h.isr == {};
    SameBoundary(p.s, s1, 1);
    BoundaryTx(s1, 1);
    StartTimesOut(s1, 1);
    StartNextFrame(s1);
    EndOfRead(t, p, StartNext(s1));
  }

  lemma RxKeepsMode(t: State, pend: set<Irq>, clr: set<Irq>)
    requires CursorOf(t.d)
    ensures var p := RxPart(t, pend, clr);
            p.s.d.prevTx == t.d.prevTx && p.s.d.completed == t.d.completed
    ensures t.d.tx.Some? ==> t.d.completed == 0
  {
    hide ReadRx, TrimLen;
  }

  lemma EndOfRead(t: State, p: Pass, s2: State)
    requires p.more && p.wake.None? && s2 == StartNext(State(p.s.d, WriteIisr(p.s.h, p.clr)))
    ensures Finish(p, false) == State(s2.d.(warned := Finish(p, false).d.warned), s2.h)
  {
    hide StartNext;
  }

  /** From an idle driver, whatever forces standard mode, the controller's quirk or a read
      that is too long: a read of any length, then a write that fits at once and whose
      start waits in vain for TX_EMPTY.
      Its last byte is counted as sent but never written, and the bus that falls free
      after it makes the driver report both messages as done. */
  lemma TimeOutDropsLastByte(s: State, a: Msg, b: Msg, slave: Slave, c: Config)
      returns (events: seq<Event>)
    requires StartXferRet(s, c, (false, false)).Ok? && !s.d.blockRead && s.h.isr == {}
    requires !UsesDynamic([a, b], c.readBroken) && s.h.polls != [] && !s.h.polls[0]
    requires a.rd && !a.recvLen && 0 < a.len <= |a.buf|
    requires !b.rd && !b.recvLen && 0 < b.len <= FIRST_CHUNK && b.len <= |b.buf|
    ensures var r := Run(StartXfer(s, [a, b], c, (false, false)), events, true);
            && XferRet(r) == Ok(2) && r.h.timedOut && !AllDone(r)
            && |r.h.dtr| < |Encode([a, b], false)|
  {
    hide StartXfer, Process, Run, LastInterrupt, ReadBeforeLast, AllDone, Encode, Latch;
    var s1 := StartXfer(s, [a, b], c, (false, false));
    ReadThenWriteStarts(s, a, b, slave, c);
    var read := ReadReachesEnd(s1, slave);
    var t := Run(s1, read, true);
    WriteTimesOut(t, slave);
    RunThen(s1, read, Interrupt);
    assert Run(s1, read + [Interrupt], true) == Process(t, true);
    RunInterrupt(s1, read + [Interrupt], {Bnb});
    events := read + [Interrupt] + [IrqBits({Bnb})] + [Interrupt];
    BnbReports(Process(t, true));
    TimeOutLosesWords(s, [a, b], c, (false, false), events);
    StartXferSetsCursor(s, [a, b], c, (false, false));
    RunKeepsCursor(s1, events, true);
  }

  lemma BnbReports(s: State)
    requires s.h.isr == {} && Bnb in s.h.ier && s.d.tx.Some? && s.d.rx.None? && s.d.nmsgs == 1
    requires TxSpace(s.d) == 0 && s.d.completed == 0 && s.h.timedOut
    ensures var r := Process(State(s.d, Latch(s.h, {Bnb})), true);
            XferRet(r) == Ok(|s.d.sent|) && r.h.timedOut
  {
    hide Process;
    var t := State(s.d, Latch(s.h, {Bnb}));
    assert Pend(t.h) == {Bnb};
    OnlyBnb(t, true);
    EndKeeps(t);
    ProcessKeepsAstray(t, true);
  }

  lemma ReadThenWriteStarts(s: State, a: Msg, b: Msg, slave: Slave, c: Config)
    requires StartXferRet(s, c, (false, false)).Ok? && !s.d.blockRead && s.h.isr == {}
    requires !UsesDynamic([a, b], c.readBroken) && s.h.polls != [] && !s.h.polls[0]
    requires a.rd && !a.recvLen && 0 < a.len <= |a.buf|
    requires !b.rd && !b.recvLen && b.len <= |b.buf|
    ensures var r := StartXfer(s, [a, b], c, (false, false));
            ReadBeforeLast(r, slave) && r.d.sent == [a, b]
  {
    hide StartNext, ReinitHw, ClearHistory, Boundary, Submit, Receiving, Armed, Cursor;
    TwoMessages(a, b);
    var t := State(Submit(s.d, [a, b], c.readBroken), ReinitHw(ClearHistory(s.h), c.clkOk));
    StartIs(s, [a, b], c);
    SubmittedIsBoundary(s.d, s.h, [a, b], c);
    SubmitFields(s.d, [a, b], c);
    SubmitPrev(s.d, [a, b], c);
    ClearFields(s.h, true);
    ReinitIsr(ClearHistory(s.h));
    BoundaryTx(t, 0);
    StartNextBegins(t, 0);
    StartStray(t);
    StartNextFrame(t);
    StartXferSetsCursor(s, [a, b], c, (false, false));
    ReadStartQuiet(t);
    FreshSpace(StartNext(t), 0);
  }

  lemma SubmitPrev(d: Drv, msgs: seq<Msg>, c: Config)
    ensures !Submit(d, msgs, c.readBroken).prevTx
  {
  }

  lemma ReinitIsr(h: Hw)
    requires h.isr == {}
    ensures ReinitHw(h, true).isr == {} && ReinitHw(h, true).polls == h.polls
  {
    hide ReinitHw;
    ReinitFrame(h, true);
  }

  lemma ReadStartQuiet(s: State)
    requires s.d.tx.Some? && TxMsg(s.d).rd && !s.d.prevTx && !s.d.dynamic && s.h.isr == {}
    ensures var r := StartNext(s);
            && r.h.isr == {} && !r.d.prevTx && r.h.polls == s.h.polls && r.h.timedOut == s.h.timedOut
  {
    hide RecvStandardHw, IrqClrEn;
    var h := IrqDis(OpenLog(s.h), {TxHalf, TxEmpty});
    RecvHwFrame(h, TxMsg(s.d), false);
    ClrEnFields(RecvStandardHw(h, TxMsg(s.d)), {Bnb});
  }

  lemma TwoMessages(a: Msg, b: Msg)
    requires a.rd && !a.recvLen && a.len <= |a.buf|
    requires !b.rd && !b.recvLen && b.len <= |b.buf|
    ensures ValidTransfer([a, b], false)
  {
  }
}
