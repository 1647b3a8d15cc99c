/** The flag smbus_block_read, which no start resets. Exactly when a transfer leaves it
    set; which parts of the driver look at it; and after which lists it does no harm. */
module XiicFlag {
  import opened Wrappers
  import opened XiicDevice
  import opened XiicSpec
  import opened XiicEncode
  import opened XiicReading
  import opened XiicCursor
  import opened XiicTransfer
  import opened XiicHandler
  import opened XiicTimeOut
  import opened XiicProgress
  import opened XiicBnb
  import opened XiicRace
  import opened XiicWaits

  // ----- When a transfer leaves it set -----

  /** The current message is a block read, and its count has been taken and was good. */
  predicate CountTaken(s: State) {
    && s.d.tx.Some? && s.d.tx.value < |s.d.sent| && s.d.tx.value < |s.h.logs|
    && s.d.sent[s.d.tx.value].recvLen
    && (s.d.rx.Some? ==> !RxMsg(s.d).recvLen)
    && s.h.logs[s.d.tx.value].bytes != []
    && s.h.logs[s.d.tx.value].bytes[0] <= 32
  }

  lemma FlagIsCount(s: State, i: nat)
    requires Running(s, i)
    ensures s.d.blockRead <==> CountTaken(s)
  {
    hide EncodeUpTo, WordsUpTo, MsgDone, NackShape;
    assert ValidAt(s.d.sent, s.d.dynamic, i);
  }

  /** The handler takes its error branch, and resets the controller. */
  predicate Resets(s: State) {
    IsErrorPend(Pend(s.h)) && !EarlyRxDone(s, Pend(s.h))
  }

  /** A pass that ends the transfer keeps the flag in its error branch alone. */
  lemma EndingPass(s: State, clkOk: bool)
    requires CursorOf(s.d) && TxQuiet(s) && s.d.tx.Some?
    requires Process(s, clkOk).d.tx.None?
    ensures Process(s, clkOk).d.blockRead <==> Resets(s) && s.d.blockRead
  {
    hide ProcessPass, StartNext, NoRxFullBit, Resets;
    PassKeepsCursor(s, clkOk);
    var p := ProcessPass(s, clkOk);
    StartNextFrame(State(p.s.d, WriteIisr(p.s.h, ClearWord(p, NoRxFullBit(s)))));
    PassFlag(s, clkOk);
  }

  lemma PassFlag(s: State, clkOk: bool)
    requires s.d.tx.Some?
    ensures var p := ProcessPass(s, clkOk);
            && (Resets(s) ==> p.s.d == s.d)
            && (!Resets(s) && p.wake.Some? ==> !p.s.d.blockRead)
  {
    hide Branches, ReinitHw, EarlyRxDone, IsErrorPend;
    BranchesFlag(s, Pend(s.h), {});
    BranchesFlag(s, Pend(s.h) + {RxFull}, {TxError});
  }

  lemma BranchesFlag(s: State, pend: set<Irq>, clr: set<Irq>)
    ensures var p := Branches(s, pend, clr); p.wake.Some? ==> !p.s.d.blockRead
  {
    hide RxPart, FillState, Advance;
    RxPartFrame(s, pend, clr);
  }

  lemma {:induction false} IdleRun(s: State, events: seq<Event>, clkOk: bool)
    requires s.d.tx.None? && s.d.rx.None?
    ensures Run(s, events, clkOk).d == s.d
    decreases |events|
  {
    hide Process;
    if events != [] {
      if events[0].Interrupt? {
        IdleProcessFrame(s, clkOk);
      }
      IdleRun(Step(s, events[0], clkOk), events[1..], clkOk);
    }
  }

  /** Exactly when a transfer leaves the flag set. If it ends because xiic_xfer waits no
      longer: when its current message is a block read with a good count taken. If it ends
      in the handler: when moreover that run of the handler takes the error branch, whatever
      happens after it. */
  lemma LeavesFlagIff(s: State, msgs: seq<Msg>, c: Config, stuck: (bool, bool),
                      events: seq<Event>, more: seq<Event>)
    requires msgs != [] && StartXferRet(s, c, stuck).Ok? && !s.d.blockRead
    requires ValidTransfer(msgs, UsesDynamic(msgs, c.readBroken))
    ensures var r := Run(StartXfer(s, msgs, c, stuck), events, c.clkOk);
            !Astray(r.h) && r.d.tx.Some? ==>
              && (XferEnd(r).d.blockRead <==> CountTaken(r))
              && var e := Process(r, c.clkOk);
                 e.d.tx.None? ==>
                   (XferEnd(Run(e, more, c.clkOk)).d.blockRead <==> Resets(r) && CountTaken(r))
  {
    hide StartXfer, Run, Inv, Process, CountTaken, Resets, Running, Armed, PendOk;
    StartXferEstablishes(s, msgs, c, stuck);
    RunKeepsInv(StartXfer(s, msgs, c, stuck), events, c.clkOk);
    var r := Run(StartXfer(s, msgs, c, stuck), events, c.clkOk);
    if !Astray(r.h) && r.d.tx.Some? {
      InvHasCursor(r);
      PendFits(r);
      FlagIsCount(r, r.d.tx.value);
      var e := Process(r, c.clkOk);
      if e.d.tx.None? {
        EndingPass(r, c.clkOk);
        ProcessKeepsCursor(r, c.clkOk);
        IdleHasNoRx(e);
        IdleRun(e, more, c.clkOk);
      }
    }
  }

  // ----- Most of the driver does not look at it -----

  function With(s: State, flag: bool): State {
    State(s.d.(blockRead := flag), s.h)
  }

  function PassWith(p: Pass, flag: bool): Pass {
    p.(s := With(p.s, flag))
  }

  lemma {:induction false} ReadBytesIgnore(x: RxIo, flag: bool, n: int)
    ensures ReadBytes(x.(blockRead := flag), n) == ReadBytes(x, n).(blockRead := flag)
    decreases n
  {
    if n > 0 {
      ReadBytesIgnore(ReadByte(x), flag, n - 1);
    }
  }

  lemma AvailableIgnores(x: RxIo, flag: bool)
    ensures var y := x.(blockRead := flag); Available(y) == Available(x) && Left(y) == Left(x)
  {
  }

  lemma ReadStandardIgnores(x: RxIo, flag: bool, last: bool)
    requires !x.m.recvLen
    ensures ReadStandard(x.(blockRead := flag), last) == ReadStandard(x, last).(blockRead := flag)
  {
    hide ReadBytes, Available, Left, BlockReadSetup;
    AvailableIgnores(x, flag);
    var avail := Available(x);
    var rem := Left(x) - avail;
    if rem > 16 {
      ReadBytesIgnore(x, flag, avail);
    } else if rem > 1 {
      ReadBytesIgnore(x, flag, rem - 1);
    } else if rem == 1 {
      ReadBytesIgnore(x.(cr := x.cr + {NoAck}), flag, 1);
    } else {
      ReadBytesIgnore(x.(cr := (if last then x.cr - {Msms} else x.cr) - {NoAck}), flag, avail);
    }
  }

  lemma ReadDynamicIgnores(x: RxIo, flag: bool)
    ensures ReadDynamic(x.(blockRead := flag)) == ReadDynamic(x).(blockRead := flag)
  {
    hide ReadBytes, Available;
    AvailableIgnores(x, flag);
    ReadBytesIgnore(x, flag, Available(x));
  }

  lemma CountOverwrites(x: RxIo, flag: bool)
    ensures BlockReadSetup(x.(blockRead := flag)) == BlockReadSetup(x)
  {
    hide BlockLength, ReadByte;
    var z := x.(m := x.m.(recvLen := false));
    ReadByteIgnores(z, flag);
    LengthOverwrites(ReadByte(z), flag, if x.fifo == [] then 0 else x.fifo[0]);
  }

  lemma ReadByteIgnores(x: RxIo, flag: bool)
    ensures ReadByte(x.(blockRead := flag)) == ReadByte(x).(blockRead := flag)
  {
  }

  lemma LengthOverwrites(y: RxIo, flag: bool, n: int)
    ensures BlockLength(y.(blockRead := flag), n) == BlockLength(y, n)
  {
    hide U8, Nat;
  }

  /** Only the count byte of a block read overwrites it. */
  lemma ReadRxIgnores(x: RxIo, flag: bool, dynamic: bool, last: bool)
    ensures ReadRx(x.(blockRead := flag), dynamic, last)
         == if !dynamic && x.m.recvLen then ReadRx(x, dynamic, last)
            else ReadRx(x, dynamic, last).(blockRead := flag)
  {
    hide ReadDynamic, ReadStandard;
    if dynamic {
      ReadDynamicIgnores(x, flag);
    } else if x.m.recvLen {
      CountOverwrites(x, flag);
      StandardBlockRead(x, last);
      StandardBlockRead(x.(blockRead := flag), last);
    } else {
      ReadStandardIgnores(x, flag, last);
    }
  }

  /** The count of a block read is taken in this pass. */
  predicate TakesCount(s: State, pend: set<Irq>) {
    RxFull in pend && s.d.rx.Some? && !s.d.dynamic && RxMsg(s.d).recvLen
  }

  lemma RxPartIgnores(s: State, flag: bool, pend: set<Irq>, clr: set<Irq>)
    ensures RxPart(With(s, flag), pend, clr)
         == if TakesCount(s, pend) then RxPart(s, pend, clr) else PassWith(RxPart(s, pend, clr), flag)
  {
    hide ReadRx, WithRx, RxView, Left, TrimLen;
    ReadRxIgnores(RxView(s), flag, s.d.dynamic, s.d.nmsgs == 1);
    ViewIgnores(s, flag);
    var x := ReadRx(RxView(s), s.d.dynamic, s.d.nmsgs == 1);
    TrimIgnores(x, flag);
    WithRxIgnores(s, flag, x);
    WithRxIgnores(s, flag, TrimLen(x));
    if RxFull in pend && s.d.rx.Some? && !TakesCount(s, pend) && Left(x) == 0 {
      EndIgnores(WithRx(s, TrimLen(x)), flag);
    }
  }

  lemma ViewIgnores(s: State, flag: bool)
    ensures RxView(With(s, flag)) == RxView(s).(blockRead := flag)
    ensures RxView(s).m == RxMsg(s.d)
  {
  }

  lemma TrimIgnores(x: RxIo, flag: bool)
    ensures TrimLen(x.(blockRead := flag)) == TrimLen(x).(blockRead := flag)
    ensures Left(x.(blockRead := flag)) == Left(x)
  {
  }

  lemma EndIgnores(s: State, flag: bool)
    ensures State(Advance(With(s, flag).d.(rx := None)), s.h)
         == With(State(Advance(s.d.(rx := None)), s.h), flag)
  {
  }

  lemma WithRxIgnores(s: State, flag: bool, x: RxIo)
    ensures WithRx(With(s, flag), x) == WithRx(s, x)
    ensures WithRx(With(s, flag), x.(blockRead := flag)) == With(WithRx(s, x), flag)
  {
  }

  lemma FillIgnores(s: State, flag: bool)
    ensures FillState(With(s, flag)) == With(FillState(s), flag)
  {
    hide FillTx;
    assert JobOf(With(s, flag).d) == JobOf(s.d) && TxView(With(s, flag)) == TxView(s);
  }

  lemma TxPartIgnores(p: Pass, flag: bool, pend: set<Irq>)
    ensures TxPart(PassWith(p, flag), pend) == PassWith(TxPart(p, pend), flag)
  {
    hide FillState, Advance, IrqDis, With, TxSpace;
    WithFields(p.s, flag);
    FillIgnores(p.s, flag);
    AdvanceIgnores(p.s, flag);
    IrqDisIgnores(p.s, flag);
  }

  lemma WithFields(s: State, flag: bool)
    ensures var t := With(s, flag);
            t.d.tx == s.d.tx && t.d.nmsgs == s.d.nmsgs && TxSpace(t.d) == TxSpace(s.d)
  {
  }

  lemma AdvanceIgnores(s: State, flag: bool)
    ensures State(Advance(With(s, flag).d), With(s, flag).h) == With(State(Advance(s.d), s.h), flag)
  {
  }

  lemma IrqDisIgnores(s: State, flag: bool)
    ensures State(With(s, flag).d, IrqDis(With(s, flag).h, {TxHalf}))
         == With(State(s.d, IrqDis(s.h, {TxHalf})), flag)
  {
    hide IrqDis;
  }

  lemma StartRecvIgnores(s: State, flag: bool)
    ensures StartRecv(With(s, flag)) == With(StartRecv(s), flag)
  {
    hide RecvDynamicHw, RecvStandardHw, IrqClrEn, Poll, PollOk;
  }

  lemma StartSendIgnores(s: State, flag: bool)
    ensures StartSend(With(s, flag)) == With(StartSend(s), flag)
  {
    hide FillState, SendDynamicHw, SendStandardHw, SendStandardEndHw, Poll, PollOk;
    FillIgnores(State(s.d, SendDynamicHw(s.h, TxMsg(s.d), s.d.nmsgs == 1)), flag);
    FillIgnores(State(s.d, SendStandardHw(AfterWait(s), TxMsg(s.d))), flag);
  }

  lemma StartNextIgnores(s: State, flag: bool)
    ensures StartNext(With(s, flag)) == With(StartNext(s), flag)
  {
    hide StartRecv, StartSend;
    assert Opened(With(s, flag)) == With(Opened(s), flag);
    StartRecvIgnores(Opened(s), flag);
    StartSendIgnores(Opened(s), flag);
  }

  lemma FinishIgnores(p: Pass, flag: bool, noRxFull: bool)
    ensures Finish(PassWith(p, flag), noRxFull) == With(Finish(p, noRxFull), flag)
  {
    hide StartNext, WriteIisr, ClearWord, Woken;
    var s1 := State(p.s.d, WriteIisr(p.s.h, ClearWord(p, noRxFull)));
    ClearIgnores(p, flag, noRxFull);
    StartNextIgnores(s1, flag);
    WokenIgnores(s1.d, p.more, p.wake, flag);
    WokenIgnores(StartNext(s1).d, p.more, p.wake, flag);
  }

  lemma ClearIgnores(p: Pass, flag: bool, noRxFull: bool)
    ensures ClearWord(PassWith(p, flag), noRxFull) == ClearWord(p, noRxFull)
  {
  }

  lemma WokenIgnores(d: Drv, more: bool, wake: Option<Status>, flag: bool)
    ensures Woken(d.(blockRead := flag), more, wake) == Woken(d, more, wake).(blockRead := flag)
  {
    hide Wakeup;
    if wake.Some? {
      WakeupIgnores(d, wake.value, flag);
    }
  }

  lemma WakeupIgnores(d: Drv, code: Status, flag: bool)
    ensures Wakeup(d.(blockRead := flag), code) == Wakeup(d, code).(blockRead := flag)
  {
  }

  /** The bits and the clear word with which the branches are entered. */
  function EntryPend(s: State): set<Irq> {
    if TakesEarlyPath(s) then Pend(s.h) + {RxFull} else Pend(s.h)
  }

  function EntryClr(s: State): set<Irq> {
    if TakesEarlyPath(s) then {TxError} else {}
  }

  lemma PassByBranches(s: State, clkOk: bool)
    ensures ProcessPass(s, clkOk) == if Resets(s) then ErrorPass(s, clkOk)
                                     else Branches(s, EntryPend(s), EntryClr(s))
    ensures Bnb in EntryPend(s) <==> Bnb in Pend(s.h)
  {
    hide Branches, ErrorPass, EarlyRxDone, IsErrorPend;
  }

  lemma EntryIgnores(s: State, flag: bool)
    ensures var t := With(s, flag);
            && Resets(t) == Resets(s) && EntryPend(t) == EntryPend(s) && EntryClr(t) == EntryClr(s)
            && NoRxFullBit(t) == NoRxFullBit(s)
  {
  }

  lemma BranchesIgnore(s: State, flag: bool, pend: set<Irq>, clr: set<Irq>)
    requires !TakesCount(s, pend)
    ensures TxPart(RxPart(With(s, flag), pend, clr), pend)
         == PassWith(TxPart(RxPart(s, pend, clr), pend), flag)
    ensures Bnb !in pend || s.d.tx.None? || TxPart(RxPart(s, pend, clr), pend).jumped ==>
              Branches(With(s, flag), pend, clr) == PassWith(Branches(s, pend, clr), flag)
  {
    hide RxPart, TxPart;
    RxPartIgnores(s, flag, pend, clr);
    TxPartIgnores(RxPart(s, pend, clr), flag, pend);
    if s.d.tx.None? {
      NoneStays(s, pend, clr);
    }
  }

  lemma NoneStays(s: State, pend: set<Irq>, clr: set<Irq>)
    requires s.d.tx.None?
    ensures TxPart(RxPart(s, pend, clr), pend).s.d.tx.None?
  {
    hide ReadRx, TrimLen, FillState;
  }

  /** Where the pass stands when it comes to the "bus not busy" branch. */
  function Reached(s: State): Pass {
    TxPart(RxPart(s, EntryPend(s), EntryClr(s)), EntryPend(s))
  }

  /** The pass looks at the flag: it takes that branch in a transfer, with no count read. */
  predicate Looks(s: State) {
    && s.d.tx.Some? && Bnb in Pend(s.h) && !Resets(s)
    && !TakesCount(s, EntryPend(s)) && !Reached(s).jumped
  }

  /** The count of a block read overwrites the flag. */
  predicate Overwrites(s: State) {
    !Resets(s) && TakesCount(s, EntryPend(s))
  }

  /** A pass that does not look leaves the flag as it is, unless a count overwrites it. */
  lemma ProcessIgnores(s: State, flag: bool, clkOk: bool)
    requires !Looks(s)
    ensures Process(With(s, flag), clkOk)
         == if Overwrites(s) then Process(s, clkOk) else With(Process(s, clkOk), flag)
  {
    hide Process, ProcessPass, Branches, ErrorPass, Finish, NoRxFullBit, EntryPend, EntryClr, TakesCount,
         Resets;
    var t, pend, clr := With(s, flag), EntryPend(s), EntryClr(s);
    ProcessIs(s, clkOk);
    ProcessIs(t, clkOk);
    PassByBranches(s, clkOk);
    PassByBranches(t, clkOk);
    EntryIgnores(s, flag);
    FinishIgnores(ProcessPass(s, clkOk), flag, NoRxFullBit(s));
    if Resets(s) {
      ErrorIgnores(s, flag, clkOk);
    } else if TakesCount(s, pend) {
      CountMerges(s, flag, pend, clr);
    } else {
      BranchesIgnore(s, flag, pend, clr);
    }
  }

  lemma ErrorIgnores(s: State, flag: bool, clkOk: bool)
    ensures ErrorPass(With(s, flag), clkOk) == PassWith(ErrorPass(s, clkOk), flag)
  {
    hide ReinitHw;
  }

  lemma CountMerges(s: State, flag: bool, pend: set<Irq>, clr: set<Irq>)
    requires TakesCount(s, pend)
    ensures Branches(With(s, flag), pend, clr) == Branches(s, pend, clr)
  {
    hide RxPart, TxPart, BnbPart;
    RxPartIgnores(s, flag, pend, clr);
  }

  // ----- A pass that looks -----

  lemma FlaggedPass(u: State, clkOk: bool)
    requires Looks(u)
    ensures Process(With(u, true), clkOk)
         == Finish(BnbPart(PassWith(Reached(u), true), EntryPend(u)), NoRxFullBit(u))
    ensures ProcessPass(u, clkOk) == BnbPart(Reached(u), EntryPend(u))
    ensures Bnb in EntryPend(u)
  {
    hide Process, ProcessPass, ErrorPass, Finish, NoRxFullBit, EntryPend, EntryClr, TakesCount, Resets,
         RxPart, TxPart, BnbPart;
    var t := With(u, true);
    ProcessIs(t, clkOk);
    PassByBranches(u, clkOk);
    PassByBranches(t, clkOk);
    EntryIgnores(u, true);
    BranchesIgnore(u, true, EntryPend(u), EntryClr(u));
  }

  /** What the branches before have made of the transfer. */
  predicate ReachedOk(u: State, p: Pass) {
    && u.d.tx.Some? && AfterBranch(p, u.d.tx.value) && !Astray(p.s.h) && p.wake.None? && p.s.d.tx.Some?
    && p.s.d.sent == u.d.sent && p.s.d.dynamic == u.d.dynamic && p.s.d.completed == 0
    && p.s.d.nmsgs == (if p.more then u.d.nmsgs - 1 else u.d.nmsgs)
    && CursorOf(p.s.d) && p.s.h.chip == u.h.chip
    && (p.s.d.rx.None? ==> u.d.rx.None? || u.d.dynamic || !RxMsg(u.d).recvLen)
  }

  lemma ReachedIsOk(u: State)
    requires Inv(u) && !Astray(u.h) && u.d.tx.Some? && !Resets(u) && !TakesCount(u, EntryPend(u))
    requires !Reached(u).jumped
    ensures ReachedOk(u, Reached(u))
  {
    hide Inv, Running, PendOk, Armed, RxPart, TxPart, AfterBranch, EntryClr, HalfOff, Cursor;
    var i, pend, clr := u.d.tx.value, EntryPend(u), EntryClr(u);
    PendFits(u);
    InvHasCursor(u);
    InvHasHalfOff(u);
    assert PendOk(u, i, pend);
    ReachData(u, i, pend, clr);
  }

  lemma ReachData(u: State, i: nat, pend: set<Irq>, clr: set<Irq>)
    requires i < |u.d.sent| && u.d.tx == Some(i) && Running(u, i) && PendOk(u, i, pend)
    requires Cursor(u) && CursorOf(u.d) && HalfOff(u) && !Astray(u.h) && u.d.completed == 0
    requires pend * {TxEmpty, TxHalf} <= Pend(u.h) && TxQuiet(u) && !TakesCount(u, pend)
    ensures ReachedOk(u, TxPart(RxPart(u, pend, clr), pend))
  {
    hide RxPart, TxPart, AfterBranch, Running, HalfOff, Cursor, TakesCount, CursorOf;
    var p1 := RxPart(u, pend, clr);
    RxPartData(u, i, pend, clr);
    RxPartKeepsCursor(u, pend, clr);
    RxPartFrame(u, pend, clr);
    TxBranchFits(u, i, p1, pend, clr);
    RxFillsAtOnce(u, p1, pend, clr);
    TxPartNeedsNoWait(p1, pend);
    TxPartData(p1, i, pend);
    NoTxIrqs(u, p1, pend, clr);
    TxPartKeepsCursor(p1, pend);
    TxPartCases(p1, pend);
    FillFrame(p1.s);
    CountUntaken(u, p1, pend, clr);
    TxPartRx(p1, pend);
    CompletedStays(u, p1, pend, clr);
    TxAdvances(u, p1, pend);
  }

  lemma CompletedStays(u: State, p1: Pass, pend: set<Irq>, clr: set<Irq>)
    requires CursorOf(u.d) && u.d.tx.Some? && CursorOf(p1.s.d) && p1 == RxPart(u, pend, clr)
    ensures p1.s.d.tx.Some? && p1.s.d.completed == u.d.completed
  {
    hide CursorOf;
    RxPartKeepsCursor(u, pend, clr);
  }

  lemma TxAdvances(u: State, p1: Pass, pend: set<Irq>)
    requires p1.s.d.tx.Some? && (p1.more ==> pend * {TxEmpty, TxHalf} == {})
    ensures var q := TxPart(p1, pend);
            && q.s.d.tx.Some? && q.s.d.completed == p1.s.d.completed && (p1.more ==> q == p1)
            && q.s.d.nmsgs == (if q.more && !p1.more then p1.s.d.nmsgs - 1 else p1.s.d.nmsgs)
            && q.s.h.chip == p1.s.h.chip
  {
    hide FillState;
    FillFrame(p1.s);
  }

  lemma TxPartRx(p1: Pass, pend: set<Irq>)
    ensures TxPart(p1, pend).s.d.rx == p1.s.d.rx
  {
    hide FillState;
    FillFrame(p1.s);
  }

  lemma CountUntaken(u: State, p1: Pass, pend: set<Irq>, clr: set<Irq>)
    requires p1 == RxPart(u, pend, clr) && !TakesCount(u, pend)
    ensures p1.s.d.rx.None? ==> u.d.rx.None? || u.d.dynamic || !RxMsg(u.d).recvLen
  {
    hide ReadRx, TrimLen;
  }

  /** What the flag makes of that branch: whatever is still to be sent counts as sent. */
  lemma FlaggedBnb(p: Pass, pend: set<Irq>)
    requires Bnb in pend && !p.jumped && p.s.d.tx.Some?
    ensures var q := BnbPart(PassWith(p, true), pend);
            && q.s == State(p.s.d.(blockRead := false, txPos := TxMsg(p.s.d).len),
                            IrqDis(p.s.h, {Bnb}))
            && q.more == p.more
            && q.wake == Some(if p.s.d.nmsgs == 1 && p.s.d.rx.None? then Done else Error)
  {
  }

  /** The state whose data the outcome shows: the next message begun, if there is one. */
  function Shown(p: Pass, h: Hw): State {
    if p.more then StartNext(State(p.s.d, h)) else p.s
  }

  lemma FlaggedFinish(p: Pass, q: Pass, noRxFull: bool)
    requires q.s == State(p.s.d.(blockRead := false, txPos := TxMsg(p.s.d).len), IrqDis(p.s.h, {Bnb}))
    requires q.more == p.more && q.wake.Some? && p.s.d.tx.Some? && (p.more ==> !p.s.d.blockRead)
    ensures var r, h := Finish(q, noRxFull), WriteIisr(q.s.h, ClearWord(q, noRxFull));
            var v := Shown(p, h);
            && h == p.s.h.(isr := h.isr, ier := h.ier)
            && r.d.tx.None? && r.d.rx.None? && r.d.nmsgs == 0 && r.d.status == q.wake.value
            && r.d.completed == v.d.completed + 1 && !r.d.blockRead
            && r.d.sent == v.d.sent && r.d.msgs == v.d.msgs && r.d.dynamic == v.d.dynamic
            && r.d.overrun == v.d.overrun
            && (if p.more then r.h == v.h else r.h == h)
  {
    hide StartNext, WriteIisr, ClearWord;
    var h := WriteIisr(q.s.h, ClearWord(q, noRxFull));
    IisrFrame(q.s.h, ClearWord(q, noRxFull));
    if p.more {
      SameStart(State(p.s.d, h), TxMsg(p.s.d).len);
      StartNextFrame(State(p.s.d, h));
    }
  }

  lemma IisrFrame(h: Hw, v: set<Irq>)
    ensures var r := WriteIisr(h, v); r == h.(isr := r.isr)
  {
  }

  /** A start begins with its own tx_pos. */
  lemma SameStart(s: State, pos: nat)
    requires s.d.tx.Some?
    ensures StartNext(State(s.d.(txPos := pos), s.h)) == StartNext(s)
  {
    hide StartRecv, StartSend;
    assert Opened(State(s.d.(txPos := pos), s.h)) == Opened(s);
  }

  lemma BoundaryIrqs(s: State, h: Hw, i: nat)
    requires Boundary(s, i) && h == s.h.(isr := h.isr, ier := h.ier)
    ensures Boundary(State(s.d, h), i) && !s.d.blockRead
  {
  }

  /** The last message is current and no read is in progress: is everything done? */
  lemma LastDone(s: State, i: nat)
    requires Running(s, i) && s.d.nmsgs == 1 && s.d.rx.None? && i < |s.d.sent|
    requires !s.d.sent[i].recvLen
    ensures AllDone(s) <==> s.d.sent[i].rd || s.d.txPos == s.d.sent[i].len
    ensures s.h.bus == Idle && Clean(s)
  {
    hide AllDone, WordsUpTo, EncodeUpTo, Reading, Encode;
    RunningIsClean(s, i);
    if s.d.sent[i].rd {
      EndedReadSpace(s, i);
      LastMessageDone(s, i);
    } else {
      WritingFields(s, i);
      if s.d.txPos == s.d.sent[i].len {
        LastMessageDone(s, i);
      } else {
        ShortOfWords(s, i);
      }
    }
  }

  lemma EndedReadSpace(s: State, i: nat)
    requires Running(s, i) && s.d.rx.None? && i < |s.d.sent| && s.d.sent[i].rd && !s.d.sent[i].recvLen
    ensures TxSpace(s.d) == 0
  {
    hide Reading, EncodeUpTo, NackShape;
  }

  lemma ShortOfWords(s: State, i: nat)
    requires Writing(s, i) && i == |s.d.sent| - 1 && s.d.txPos < s.d.sent[i].len
    ensures !AllDone(s)
  {
    hide History;
    WriteLength(s, i);
    SplitEncoding(s.d.sent, s.d.dynamic, i + 1);
    assert EncodeFrom(s.d.sent, s.d.dynamic, i + 1) == [];
  }

  /** No block read is under way whose count has been taken. */
  predicate Uncounted(s: State) {
    s.d.tx.Some? && s.d.tx.value < |s.d.sent| && s.d.sent[s.d.tx.value].recvLen ==>
      s.d.rx.Some? && RxMsg(s.d).recvLen && !s.d.dynamic
  }

  lemma LastIsNoBlockRead(u: State, p: Pass)
    requires ReachedOk(u, p) && Uncounted(u) && CursorOf(u.d) && |u.d.sent| == |u.d.msgs|
    requires p.s.d.nmsgs == 1 && p.s.d.rx.None? && !p.more
    ensures u.d.tx.value == |u.d.sent| - 1 && !u.d.sent[|u.d.sent| - 1].recvLen
  {
    hide AfterBranch;
  }

  /** The outcome of a pass that looks at a flag left set. It says Done exactly if the last
      message is current and no read is in progress; and that is true exactly if the
      message is complete. */
  lemma FlaggedOutcome(u: State, clkOk: bool)
    requires Inv(u) && !Astray(u.h) && Looks(u) && Uncounted(u)
    ensures u.d.sent != []
    ensures var p, r, last := Reached(u), Process(With(u, true), clkOk), u.d.sent[|u.d.sent| - 1];
            && ReachedOk(u, p)
            && r.d.tx.None? && r.d.rx.None? && r.d.completed == 1 && !r.d.blockRead
            && r.d.sent == u.d.sent && r.d.dynamic == u.d.dynamic
            && (r.d.status == Done <==> p.s.d.nmsgs == 1 && p.s.d.rx.None?)
            && (!Astray(r.h) ==> Clean(r))
            && (r.d.status == Done && !Astray(r.h) && AllDone(r) ==> r.h.bus == Idle)
            && (r.d.status == Done && !Astray(r.h) ==>
                  (AllDone(r) <==> if p.more then FitsAtOnce(last)
                                   else last.rd || p.s.d.txPos == last.len))
  {
    hide Process, ProcessPass, Inv, Looks, Uncounted, ReachedOk, BnbPart, NoRxFullBit, Reached, Finish,
         AllDone, Clean, FitsAtOnce;
    InvHasCursor(u);
    LooksFields(u);
    FlaggedPass(u, clkOk);
    ReachedIsOk(u);
    var p := Reached(u);
    ReachedFields(u, p);
    var q := BnbPart(PassWith(p, true), EntryPend(u));
    FlaggedBnb(p, EntryPend(u));
    if p.more {
      assert Boundary(p.s, u.d.tx.value + 1) by { MoreIsBoundary(p, u.d.tx.value); }
      BoundaryIrqs(p.s, p.s.h, u.d.tx.value + 1);
    }
    FlaggedFinish(p, q, NoRxFullBit(u));
    if p.more {
      FlaggedMore(u, p, q, NoRxFullBit(u));
    } else {
      FlaggedLast(u, p, q, NoRxFullBit(u));
    }
  }

  lemma LooksFields(u: State)
    requires Looks(u)
    ensures u.d.tx.Some? && !Resets(u) && !TakesCount(u, EntryPend(u)) && !Reached(u).jumped
  {
    hide Resets, TakesCount, Reached;
  }

  lemma ReachedFields(u: State, p: Pass)
    requires ReachedOk(u, p)
    ensures u.d.tx.Some? && p.s.d.tx.Some? && !Astray(p.s.h) && AfterBranch(p, u.d.tx.value)
    ensures p.s.d.sent == u.d.sent && p.s.d.dynamic == u.d.dynamic && p.s.d.completed == 0
    ensures p.s.d.nmsgs == (if p.more then u.d.nmsgs - 1 else u.d.nmsgs)
    ensures CursorOf(p.s.d)
  {
    hide AfterBranch;
  }

  lemma FlaggedMore(u: State, p: Pass, q: Pass, noRxFull: bool)
    requires ReachedOk(u, p) && p.more && q.more && q.wake.Some?
    requires q.s == State(p.s.d.(blockRead := false, txPos := TxMsg(p.s.d).len), IrqDis(p.s.h, {Bnb}))
    requires q.wake == Some(if p.s.d.nmsgs == 1 && p.s.d.rx.None? then Done else Error)
    requires var r, h := Finish(q, noRxFull), WriteIisr(q.s.h, ClearWord(q, noRxFull));
             var v := Shown(p, h);
             && h == p.s.h.(isr := h.isr, ier := h.ier)
             && r.d.status == q.wake.value && r.d.completed == v.d.completed + 1
             && r.d.sent == v.d.sent && r.d.msgs == v.d.msgs && r.d.dynamic == v.d.dynamic
             && r.d.overrun == v.d.overrun && r.h == v.h
    ensures u.d.sent != []
    ensures var r, last := Finish(q, noRxFull), u.d.sent[|u.d.sent| - 1];
            && r.d.completed == 1 && r.d.sent == u.d.sent && r.d.dynamic == u.d.dynamic
            && (r.d.status == Done <==> p.s.d.nmsgs == 1 && p.s.d.rx.None?)
            && (!Astray(r.h) ==> Clean(r))
            && (r.d.status == Done && !Astray(r.h) && AllDone(r) ==> r.h.bus == Idle)
            && (r.d.status == Done && !Astray(r.h) ==> (AllDone(r) <==> FitsAtOnce(last)))
  {
    hide StartNext, Finish, Boundary, AllDone, Clean, FitsAtOnce, WriteIisr, ClearWord, Running;
    ReachedFields(u, p);
    var i, h := u.d.tx.value + 1, WriteIisr(q.s.h, ClearWord(q, noRxFull));
    assert Boundary(p.s, i) by { MoreIsBoundary(p, u.d.tx.value); }
    BoundaryIrqs(p.s, h, i);
    var v, r := State(p.s.d, h), Finish(q, noRxFull);
    BoundaryTx(v, i);
    BoundaryCount(v, i);
    StartNextFrame(v);
    if !Astray(r.h) {
      StartNextBegins(v, i);
      RunningIsClean(StartNext(v), i);
      SameClean(StartNext(v), r);
      if r.d.status == Done {
        RaceStarts(v, i);
        SameDone(StartNext(v), r);
      }
    }
  }

  lemma SameClean(a: State, b: State)
    requires Clean(a) && a.d.sent == b.d.sent && a.d.dynamic == b.d.dynamic && a.d.overrun == b.d.overrun
    requires a.h.dtr == b.h.dtr && a.h.underflow == b.h.underflow && a.h.overflow == b.h.overflow
    ensures Clean(b)
  {
  }

  lemma FlaggedLast(u: State, p: Pass, q: Pass, noRxFull: bool)
    requires ReachedOk(u, p) && !p.more && !q.more && q.wake.Some?
    requires Uncounted(u) && CursorOf(u.d)
    requires q.wake == Some(if p.s.d.nmsgs == 1 && p.s.d.rx.None? then Done else Error)
    requires var r, h := Finish(q, noRxFull), WriteIisr(q.s.h, ClearWord(q, noRxFull));
             && h == p.s.h.(isr := h.isr, ier := h.ier)
             && r.d.status == q.wake.value && r.d.completed == p.s.d.completed + 1
             && r.d.sent == p.s.d.sent && r.d.msgs == p.s.d.msgs && r.d.dynamic == p.s.d.dynamic
             && r.d.overrun == p.s.d.overrun && r.h == h
    ensures u.d.sent != []
    ensures var r, last := Finish(q, noRxFull), u.d.sent[|u.d.sent| - 1];
            && r.d.completed == 1 && r.d.sent == u.d.sent && r.d.dynamic == u.d.dynamic
            && (r.d.status == Done <==> p.s.d.nmsgs == 1 && p.s.d.rx.None?)
            && Clean(r)
            && (r.d.status == Done ==> r.h.bus == Idle)
            && (r.d.status == Done ==> (AllDone(r) <==> last.rd || p.s.d.txPos == last.len))
  {
    hide StartNext, Finish, AllDone, Clean, FitsAtOnce, WriteIisr, ClearWord, Running, Uncounted;
    ReachedFields(u, p);
    var i, r := u.d.tx.value, Finish(q, noRxFull);
    RunningIsClean(p.s, i);
    SameClean(p.s, r);
    SameDone(p.s, r);
    RunningLast(p.s, i);
    if r.d.status == Done {
      LastIsNoBlockRead(u, p);
      LastDone(p.s, i);
    }
  }

  lemma RunningLast(s: State, i: nat)
    requires Running(s, i)
    ensures i < |s.d.sent| && s.d.nmsgs == |s.d.sent| - i
  {
    hide Reading, EncodeUpTo, WordsUpTo, MsgDone;
  }

  // ----- After which lists a flag left set does no harm -----

  /** The last message is complete as soon as it is started, or is the only one and a read. */
  predicate FlagSafe(msgs: seq<Msg>) {
    msgs != [] && (FitsAtOnce(msgs[|msgs| - 1]) || (|msgs| == 1 && msgs[0].rd))
  }

  lemma FlagSafeIsSafe(msgs: seq<Msg>)
    requires FlagSafe(msgs)
    ensures SafeEnd(msgs)
  {
  }

  /** The same for a list of reads in standard mode before whose last message the bus is
      never seen free. */
  predicate Harmless(s: State) {
    FlagSafe(s.d.sent) || (BnbOff(s) && s.d.sent != [] && s.d.sent[|s.d.sent| - 1].rd)
  }

  lemma HarmlessHasNoRace(s: State)
    requires Harmless(s)
    ensures NoRace(s) && Harmless(With(s, false))
  {
    hide FitsAtOnce, WriteUpTo;
    if FlagSafe(s.d.sent) {
      FlagSafeIsSafe(s.d.sent);
    }
  }

  lemma StepKeepsHarmless(s: State, e: Event, clkOk: bool)
    requires Cursor(s) && Harmless(s)
    ensures Harmless(Step(s, e, clkOk))
  {
    hide Process, FlagSafe, Cursor, WriteUpTo;
    StepKeepsCursor(s, e, clkOk);
    if e.Interrupt? && !FlagSafe(s.d.sent) {
      ProcessKeepsBnbOff(s, clkOk);
    }
  }

  /** The flag is as it was left, all else as it would be without it, and no success has
      been reported. */
  predicate Carried(s: State) {
    && s.d.blockRead && Inv(With(s, false)) && !Reported(s)
    && (!Astray(s.h) ==> Uncounted(s))
  }

  /** It has been looked at or overwritten, and a success, if there is one, is true. */
  predicate Spent(s: State) {
    Inv(s) && Truthful(s)
  }

  predicate FlagInv(s: State) {
    Harmless(s) && (Carried(s) || Spent(s))
  }

  lemma WithBack(s: State)
    requires s.d.blockRead
    ensures With(With(s, false), true) == s
    ensures Reported(With(s, false)) == Reported(s) && Uncounted(With(s, false)) == Uncounted(s)
    ensures CursorOf(With(s, false).d) == CursorOf(s.d) && Cursor(With(s, false)) == Cursor(s)
    ensures HalfOff(With(s, false)) == HalfOff(s)
  {
  }

  lemma WithForth(s: State)
    ensures With(With(s, true), false) == With(s, false)
    ensures Reported(With(s, true)) == Reported(s) && Uncounted(With(s, true)) == Uncounted(s)
  {
  }

  /** When the flag is looked at, success is reported only if it is true. */
  lemma LookedAtSafely(u: State, clkOk: bool)
    requires Inv(u) && !Astray(u.h) && Looks(u) && Uncounted(u) && Harmless(u)
    ensures Spent(Process(With(u, true), clkOk))
    ensures Process(With(u, true), clkOk).d.sent == u.d.sent
  {
    hide Process, Inv, Looks, Uncounted, Reached, AllDone, Clean, FitsAtOnce, Cursor, HalfOff;
    var f := With(u, true);
    InvHasCursor(u);
    InvHasHalfOff(u);
    assert Cursor(f) && HalfOff(f) by { SameFields(u); }
    ProcessKeepsCursor(f, clkOk);
    ProcessKeepsHalfOff(f, clkOk);
    FlaggedOutcome(u, clkOk);
    var r, p := Process(f, clkOk), Reached(u);
    if r.d.status == Done && !Astray(r.h) {
      LooksPending(u);
      SafelyDone(u, p);
    }
    SpentIfDone(r);
  }

  lemma SameFields(u: State)
    requires Cursor(u) && HalfOff(u)
    ensures Cursor(With(u, true)) && HalfOff(With(u, true))
  {
  }

  lemma SafelyDone(u: State, p: Pass)
    requires ReachedOk(u, p) && Harmless(u) && p.s.d.nmsgs == 1 && CursorOf(u.d) && Bnb in u.h.ier
    ensures var last := u.d.sent[|u.d.sent| - 1];
            if p.more then FitsAtOnce(last) else last.rd || p.s.d.txPos == last.len
  {
    hide CursorOf, Running, Boundary, WriteUpTo;
    CursorCount(u);
    if !p.more {
      RunningLast(p.s, u.d.tx.value);
      if !u.d.sent[u.d.tx.value].rd {
        WritingNow(p.s, u.d.tx.value);
      }
    }
  }

  lemma LooksPending(u: State)
    requires Looks(u)
    ensures Bnb in u.h.ier
  {
    hide Resets, TakesCount, Reached;
  }

  lemma CursorCount(u: State)
    requires CursorOf(u.d) && u.d.tx.Some?
    ensures u.d.nmsgs == |u.d.sent| - u.d.tx.value && u.d.tx.value < |u.d.sent|
  {
  }

  lemma SpentIfDone(r: State)
    requires Cursor(r) && HalfOff(r) && r.d.tx.None?
    requires !Astray(r.h) ==> Clean(r)
    requires r.d.status == Done && !Astray(r.h) ==> AllDone(r) && r.h.bus == Idle
    ensures Spent(r)
  {
    hide Cursor, HalfOff, AllDone, Clean;
  }

  /** A pass that does not look reports no success by itself. */
  lemma NoReport(u: State, clkOk: bool)
    requires Inv(u) && !Looks(u) && !Overwrites(u) && !Reported(u)
    ensures !Reported(Process(u, clkOk)) || Astray(u.h)
  {
    hide Process, Inv, Looks, Overwrites, ProcessPass, NoRxFullBit, StartNext;
    InvHasCursor(u);
    ProcessIs(u, clkOk);
    if u.d.tx.None? {
      IdleHasNoRx(u);
      IdleProcessFrame(u, clkOk);
    } else {
      PassKeepsCursor(u, clkOk);
      NoWakeDone(u, clkOk);
      var p := ProcessPass(u, clkOk);
      StartNextFrame(State(p.s.d, WriteIisr(p.s.h, ClearWord(p, NoRxFullBit(u)))));
    }
  }

  lemma NoWakeDone(u: State, clkOk: bool)
    requires u.d.tx.Some? && !Looks(u) && !Overwrites(u)
    ensures ProcessPass(u, clkOk).wake != Some(Done)
  {
    hide RxPart, TxPart, EntryPend, EntryClr, Resets, TakesCount, ProcessPass;
    PassByBranches(u, clkOk);
    var p := TxPart(RxPart(u, EntryPend(u), EntryClr(u)), EntryPend(u));
    assert p == Reached(u);
    NoEarlyWake(u, EntryPend(u), EntryClr(u));
  }

  lemma NoEarlyWake(u: State, pend: set<Irq>, clr: set<Irq>)
    ensures TxPart(RxPart(u, pend, clr), pend).wake.None?
  {
    hide ReadRx, TrimLen, FillState;
  }

  /** A count not taken is still awaited; a message newly begun has none taken. */
  lemma StaysUncounted(u: State, clkOk: bool)
    requires Inv(u) && !Astray(u.h) && Uncounted(u) && u.d.tx.Some? && !Overwrites(u)
    requires !Astray(Process(u, clkOk).h)
    ensures Uncounted(Process(u, clkOk))
  {
    hide Process, Inv, ProcessPass, NoRxFullBit, StartNext, Boundary, EntryPend, EntryClr, Resets,
         TakesCount;
    InvHasCursor(u);
    PassKeepsCursor(u, clkOk);
    ProcessIs(u, clkOk);
    var i, p := u.d.tx.value, ProcessPass(u, clkOk);
    var s1 := State(p.s.d, WriteIisr(p.s.h, ClearWord(p, NoRxFullBit(u))));
    StartNextFrame(s1);
    if p.more {
      RacePass(u, clkOk);
      SameBoundary(p.s, s1, i + 1);
      BoundaryTx(s1, i + 1);
      NextUncounted(u, s1, i + 1);
    } else if p.wake.None? && u.d.sent[i].recvLen {
      PassByBranches(u, clkOk);
      BranchesUntaken(u, EntryPend(u), EntryClr(u));
    }
  }

  lemma NextUncounted(u: State, s: State, i: nat)
    requires Boundary(s, i) && s.d.sent == u.d.sent
    ensures s.d.sent[i].recvLen ==> TxMsg(s.d).recvLen && TxMsg(s.d).rd && !s.d.dynamic
    ensures s.d.msgs[i] == s.d.sent[i] && |s.d.msgs| == |s.d.sent|
  {
    assert ValidAt(s.d.sent, s.d.dynamic, i);
  }

  lemma BranchesUntaken(u: State, pend: set<Irq>, clr: set<Irq>)
    requires u.d.rx.Some? && !u.d.dynamic && RxMsg(u.d).recvLen && !TakesCount(u, pend)
    ensures var p := Branches(u, pend, clr);
            p.wake.None? && !p.more ==> p.s.d.rx == u.d.rx && p.s.d.dynamic == u.d.dynamic
                                        && RxMsg(p.s.d) == RxMsg(u.d)
  {
    hide FillState, Advance;
    FillFrame(u);
  }

  lemma CarriedProcess(s: State, clkOk: bool)
    requires Carried(s) && Harmless(s)
    ensures var r := Process(s, clkOk); (Carried(r) || Spent(r)) && r.d.sent == s.d.sent
  {
    hide Process, Inv, Looks, Overwrites, Harmless, Uncounted, Cursor, HalfOff;
    var u := With(s, false);
    HarmlessHasNoRace(s);
    HarmlessHasNoRace(u);
    WithBack(s);
    InvHasCursor(u);
    ProcessKeepsCursor(s, clkOk);
    if !Looks(u) {
      ProcessIgnores(u, true, clkOk);
      ProcessKeepsInv(u, clkOk);
      ProcessKeepsCursor(u, clkOk);
      ProcessKeepsAstray(u, clkOk);
      if Overwrites(u) {
        ProcessIsTruthful(u, clkOk);
      } else {
        CarriedOn(s, u, clkOk);
      }
    } else if Astray(s.h) {
      InvHasHalfOff(u);
      ProcessKeepsHalfOff(s, clkOk);
      ProcessKeepsAstray(s, clkOk);
      AstrayIsSpent(Process(s, clkOk));
    } else {
      LookedAtSafely(u, clkOk);
    }
  }

  lemma AstrayIsSpent(r: State)
    requires Cursor(r) && HalfOff(r) && Astray(r.h)
    ensures Spent(r)
  {
    hide Cursor, HalfOff;
  }

  lemma CarriedOn(s: State, u: State, clkOk: bool)
    requires Carried(s) && u == With(s, false) && !Looks(u) && !Overwrites(u)
    requires Process(s, clkOk) == With(Process(u, clkOk), true)
    requires Inv(Process(u, clkOk)) && (Astray(u.h) ==> Astray(Process(u, clkOk).h))
    ensures Carried(Process(s, clkOk))
  {
    hide Process, Inv, Looks, Overwrites, Uncounted;
    WithBack(s);
    WithForth(Process(u, clkOk));
    NoReport(u, clkOk);
    ProcessIgnores(u, false, clkOk);
    if !Astray(Process(u, clkOk).h) {
      if u.d.tx.Some? {
        StaysUncounted(u, clkOk);
      } else {
        InvHasCursor(u);
        IdleHasNoRx(u);
        IdleProcessFrame(u, clkOk);
        NoneUncounted(Process(u, clkOk));
      }
    }
  }

  lemma NoneUncounted(s: State)
    requires s.d.tx.None?
    ensures Uncounted(s)
  {
  }

  lemma StepKeepsFlag(s: State, e: Event, clkOk: bool)
    requires FlagInv(s)
    ensures FlagInv(Step(s, e, clkOk)) && Step(s, e, clkOk).d.sent == s.d.sent
  {
    hide Process, Inv, Harmless, Uncounted, Truthful, Cursor;
    assert Cursor(s) by { FlaggedCursor(s); }
    StepKeepsHarmless(s, e, clkOk);
    HarmlessHasNoRace(s);
    if Spent(s) {
      StepKeepsInv(s, e, clkOk);
      StepIsTruthful(s, e, clkOk);
      InvHasCursor(s);
      StepKeepsCursor(s, e, clkOk);
    } else if e.Interrupt? {
      CarriedProcess(s, clkOk);
    } else {
      BusCarries(s, e, clkOk);
    }
  }

  lemma FlaggedCursor(s: State)
    requires Carried(s) || Spent(s)
    ensures Cursor(s)
  {
    hide Inv, Uncounted, Truthful, Cursor;
    if Spent(s) {
      InvHasCursor(s);
    } else {
      InvHasCursor(With(s, false));
      WithBack(s);
    }
  }

  lemma BusCarries(s: State, e: Event, clkOk: bool)
    requires Carried(s) && !e.Interrupt?
    ensures Carried(Step(s, e, clkOk)) && Step(s, e, clkOk).d == s.d
  {
    hide Process, Inv;
    var u := With(s, false);
    StepKeepsInv(u, e, clkOk);
    BusKeepsAstray(s, e, clkOk);
    assert With(Step(s, e, clkOk), false) == Step(u, e, clkOk);
  }

  lemma {:induction false} RunKeepsFlag(s: State, events: seq<Event>, clkOk: bool)
    requires FlagInv(s)
    ensures FlagInv(Run(s, events, clkOk))
    decreases |events|
  {
    hide Step, FlagInv;
    if events != [] {
      StepKeepsFlag(s, events[0], clkOk);
      RunKeepsFlag(Step(s, events[0], clkOk), events[1..], clkOk);
    }
  }

  /** A start does not look at the flag. */
  lemma StartXferIgnores(s: State, msgs: seq<Msg>, c: Config, stuck: (bool, bool))
    requires msgs != [] && StartXferRet(s, c, stuck).Ok?
    ensures StartXfer(With(s, true), msgs, c, stuck) == With(StartXfer(s, msgs, c, stuck), true)
    ensures StartXferRet(With(s, true), c, stuck) == StartXferRet(s, c, stuck)
  {
    hide StartNext, ReinitHw, ClearHistory, UsesDynamic;
    var h1 := FreedHw(s.h, c, stuck);
    var t := State(Submit(s.d, msgs, c.readBroken), ReinitHw(ClearHistory(h1), c.clkOk));
    SubmitIgnores(s.d, msgs, c);
    StartNextIgnores(t, true);
  }

  lemma SubmitIgnores(d: Drv, msgs: seq<Msg>, c: Config)
    ensures Submit(d.(blockRead := true), msgs, c.readBroken)
         == Submit(d, msgs, c.readBroken).(blockRead := true)
  {
    hide UsesDynamic;
  }

  lemma StartCarries(s: State, msgs: seq<Msg>, c: Config, stuck: (bool, bool))
    requires msgs != [] && StartXferRet(s, c, stuck).Ok? && s.d.blockRead
    requires ValidTransfer(msgs, UsesDynamic(msgs, c.readBroken))
    ensures Carried(StartXfer(s, msgs, c, stuck)) && StartXfer(s, msgs, c, stuck).d.sent == msgs
  {
    hide StartXfer, UsesDynamic, Inv, ValidTransfer;
    var t := With(s, false);
    WithBack(s);
    StartXferIgnores(t, msgs, c, stuck);
    StartXferEstablishes(t, msgs, c, stuck);
    StartXferSetsCursor(t, msgs, c, stuck);
    StartUncounted(t, msgs, c, stuck);
    var r := StartXfer(t, msgs, c, stuck);
    StartHasNoFlag(t, msgs, c, stuck);
    WithForth(r);
    assert With(r, false) == r;
  }

  lemma StartHasNoFlag(s: State, msgs: seq<Msg>, c: Config, stuck: (bool, bool))
    requires msgs != [] && StartXferRet(s, c, stuck).Ok? && !s.d.blockRead
    ensures !StartXfer(s, msgs, c, stuck).d.blockRead
  {
    hide StartNext, ReinitHw, ClearHistory;
    var h1 := FreedHw(s.h, c, stuck);
    StartNextFrame(State(Submit(s.d, msgs, c.readBroken), ReinitHw(ClearHistory(h1), c.clkOk)));
  }

  lemma StartUncounted(s: State, msgs: seq<Msg>, c: Config, stuck: (bool, bool))
    requires msgs != [] && StartXferRet(s, c, stuck).Ok? && !s.d.blockRead
    requires ValidTransfer(msgs, UsesDynamic(msgs, c.readBroken))
    ensures Uncounted(StartXfer(s, msgs, c, stuck))
  {
    hide StartNext, ReinitHw, ClearHistory, UsesDynamic, Boundary, Submit;
    var h1 := FreedHw(s.h, c, stuck);
    var t := State(Submit(s.d, msgs, c.readBroken), ReinitHw(ClearHistory(h1), c.clkOk));
    assert StartXfer(s, msgs, c, stuck) == StartNext(t);
    SubmittedIsBoundary(s.d, h1, msgs, c);
    BoundaryTx(t, 0);
    NextUncounted(t, t, 0);
    StartNextFrame(t);
  }

  /** A start that leaves no way to be harmed. */
  lemma HarmlessIsSound(s: State, msgs: seq<Msg>, c: Config, stuck: (bool, bool),
                        events: seq<Event>)
    requires msgs != [] && StartXferRet(s, c, stuck).Ok? && s.d.blockRead
    requires ValidTransfer(msgs, UsesDynamic(msgs, c.readBroken))
    requires Harmless(StartXfer(s, msgs, c, stuck))
    ensures var r := Run(StartXfer(s, msgs, c, stuck), events, c.clkOk);
            XferRet(r).Ok? && !Astray(r.h) ==> AllDone(r)
  {
    hide StartXfer, Run, UsesDynamic, Inv, ValidTransfer, Harmless, AllDone, Cursor;
    StartCarries(s, msgs, c, stuck);
    StartXferSetsCursor(s, msgs, c, stuck);
    RunKeepsFlag(StartXfer(s, msgs, c, stuck), events, c.clkOk);
    RunKeepsCursor(StartXfer(s, msgs, c, stuck), events, c.clkOk);
    CompletedOnce(Run(StartXfer(s, msgs, c, stuck), events, c.clkOk));
  }

  /** With a flag left set, in either mode and on every run: success is sound if the last
      message is complete as soon as it is started, or is the only one and a read. */
  lemma FlagSafeIsSound(s: State, msgs: seq<Msg>, c: Config, stuck: (bool, bool),
                        events: seq<Event>)
    requires msgs != [] && StartXferRet(s, c, stuck).Ok? && s.d.blockRead
    requires ValidTransfer(msgs, UsesDynamic(msgs, c.readBroken)) && FlagSafe(msgs)
    ensures var r := Run(StartXfer(s, msgs, c, stuck), events, c.clkOk);
            XferRet(r).Ok? && !Astray(r.h) ==> AllDone(r)
  {
    hide StartXfer, Run, UsesDynamic, ValidTransfer, FlagSafe, AllDone, Cursor;
    StartXferSetsCursor(s, msgs, c, stuck);
    HarmlessIsSound(s, msgs, c, stuck, events);
  }
}
