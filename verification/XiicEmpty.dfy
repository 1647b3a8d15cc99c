/** Reads that ask for no byte. On a silent bus such a read never ends; on a bus that
    clocks bytes for it all the same it ends, but nothing that is then reported as a
    success is one. */
module XiicEmpty {
  import opened Wrappers
  import opened XiicDevice
  import opened XiicSpec
  import opened XiicEncode
  import opened XiicCursor
  import opened XiicTransfer
  import opened XiicHandler
  import opened XiicReads
  import opened XiicTimeOut
  import opened XiicProgress
  import opened XiicRuns
  import opened XiicRace

  predicate EmptyRead(m: Msg) {
    m.rd && m.len == 0
  }

  /** Message j is the last, and follows another without bytes: the end of that one may
      be taken for its own. */
  predicate Raceable(msgs: seq<Msg>, j: nat) {
    0 < j == |msgs| - 1 && msgs[j - 1].len == 0
  }

  // ----- On a silent bus -----

  /** The transfer has not got past message j, an empty dynamic read, nor succeeded. */
  predicate Held(s: State, j: nat) {
    && Inv(s) && !Astray(s.h) && s.d.dynamic && s.h.chip.emptyRead == 0
    && j < |s.d.sent| && EmptyRead(s.d.sent[j]) && !Raceable(s.d.sent, j)
    && s.d.status != Done
    && (s.d.tx.Some? ==> s.d.tx.value <= j && (s.d.tx.value == j ==> s.d.rx.Some?))
  }

  lemma SilentAlways(msgs: seq<Msg>)
    ensures SilentWhenEmpty(msgs, true, 0)
  {
  }

  lemma NothingArrives(s: State, j: nat)
    requires Held(s, j) && s.d.tx == Some(j)
    ensures s.h.rxFifo == [] && !s.d.blockRead && RxFull !in Pend(s.h)
    ensures Pend(s.h) * {TxEmpty, TxHalf} == {}
  {
    hide History, EncodeUpTo, Encode;
    PendFits(s);
    assert Receiving(s, j);
  }

  lemma NothingHappens(s: State, j: nat, clkOk: bool)
    requires Held(s, j) && s.d.tx == Some(j)
    ensures var p := ProcessPass(s, clkOk);
            !p.more && p.s.d == s.d && p.wake != Some(Done)
  {
    NothingArrives(s, j);
    hide ReadRx, FillState, Inv, EncodeUpTo, Raceable, EmptyRead;
  }

  lemma HeldProcess(s: State, j: nat, clkOk: bool)
    requires Held(s, j)
    ensures Held(Process(s, clkOk), j)
  {
    hide Process, Inv, EmptyRead, Raceable;
    InvHasCursor(s);
    SilentAlways(s.d.sent);
    ProcessKeepsInv(s, clkOk);
    StepSilent(s, Interrupt, clkOk);
    ProcessKeepsCursor(s, clkOk);
    ProcessEmptyRead(s, clkOk);
    if s.d.tx.None? {
      IdleHasNoRx(s);
      IdleProcessFrame(s, clkOk);
    } else if s.d.tx.value == j {
      NothingHappens(s, j, clkOk);
      HeldStays(s, j, clkOk);
    } else {
      EmptyIsRead(s.d.sent[j]);
      HeldMoves(s, j, clkOk);
    }
  }

  lemma HeldStays(s: State, j: nat, clkOk: bool)
    requires Cursor(s) && s.d.tx == Some(j) && s.d.rx.Some? && s.d.status != Done
    requires var p := ProcessPass(s, clkOk); !p.more && p.s.d == s.d && p.wake != Some(Done)
    ensures var r := Process(s, clkOk);
            r.d.status != Done && (r.d.tx.Some? ==> r.d.tx == Some(j) && r.d.rx.Some?)
  {
    hide ProcessPass, StartNext, NoRxFullBit;
  }

  /** Before message j: the end of one message may begin message j, but not report success. */
  lemma HeldMoves(s: State, j: nat, clkOk: bool)
    requires Inv(s) && !Astray(s.h) && s.d.tx.Some? && s.d.tx.value < j < |s.d.sent|
    requires s.d.status != Done && s.d.sent[j].rd && s.d.sent[j].len == 0
    requires !Raceable(s.d.sent, j)
    ensures var r := Process(s, clkOk);
            && r.d.status != Done
            && (r.d.tx.Some? ==> && r.d.tx.value <= j
                                 && (r.d.tx.value == j ==> r.d.rx.Some? && ProcessPass(s, clkOk).more))
            && (ProcessPass(s, clkOk).more ==> r.d.tx.None? || r.d.tx == Some(s.d.tx.value + 1))
            && (!ProcessPass(s, clkOk).more ==> r.d.tx.None? || r.d.tx == s.d.tx)
  {
    hide Process, ProcessPass, Inv, Boundary, NoRxFullBit, StartNext;
    InvHasCursor(s);
    PassKeepsCursor(s, clkOk);
    ProcessIs(s, clkOk);
    var p := ProcessPass(s, clkOk);
    var s1 := State(p.s.d, WriteIisr(p.s.h, ClearWord(p, NoRxFullBit(s))));
    if p.more {
      RacePass(s, clkOk);
      SameBoundary(p.s, s1, s.d.tx.value + 1);
      BoundaryTx(s1, s.d.tx.value + 1);
      StartNextFrame(s1);
    }
    PassStatus(s, clkOk);
  }

  /** No branch changes the status by itself. */
  lemma PassStatus(s: State, clkOk: bool)
    ensures ProcessPass(s, clkOk).s.d.status == s.d.status
  {
    hide Branches, ReinitHw;
    BranchesStatus(s, Pend(s.h), {});
    BranchesStatus(s, Pend(s.h) + {RxFull}, {TxError});
  }

  lemma BranchesStatus(s: State, pend: set<Irq>, clr: set<Irq>)
    ensures Branches(s, pend, clr).s.d.status == s.d.status
  {
    hide RxPart, TxPart, BnbPart, FillState;
    RxStatus(s, pend, clr);
    var p1 := RxPart(s, pend, clr);
    TxPartCases(p1, pend);
    FillFrame(p1.s);
    BnbStatus(TxPart(p1, pend), pend);
  }

  lemma RxStatus(s: State, pend: set<Irq>, clr: set<Irq>)
    ensures RxPart(s, pend, clr).s.d.status == s.d.status
  {
    hide ReadRx, TrimLen, Left;
  }

  lemma BnbStatus(p: Pass, pend: set<Irq>)
    ensures BnbPart(p, pend).s.d.status == p.s.d.status
  {
  }

  lemma {:induction false} HeldRuns(s: State, j: nat, events: seq<Event>, clkOk: bool)
    requires Held(s, j)
    ensures Held(Run(s, events, clkOk), j)
    decreases |events|
  {
    hide Process, Inv, EmptyRead, Raceable;
    if events != [] {
      StepKeepsInv(s, events[0], clkOk);
      if events[0].Interrupt? {
        HeldProcess(s, j, clkOk);
      }
      HeldRuns(Step(s, events[0], clkOk), j, events[1..], clkOk);
    }
  }

  lemma HeldFromStart(s: State, msgs: seq<Msg>, c: Config, stuck: (bool, bool), j: nat)
    requires msgs != [] && StartXferRet(s, c, stuck).Ok? && !s.d.blockRead
    requires UsesDynamic(msgs, c.readBroken) && ValidTransfer(msgs, true)
    requires s.h.chip.emptyRead == 0 && j < |msgs| && EmptyRead(msgs[j]) && !Raceable(msgs, j)
    ensures Held(StartXfer(s, msgs, c, stuck), j)
  {
    hide Inv, StartNext, ReinitHw, ClearHistory, EmptyRead, Raceable, UsesDynamic, Submit, Boundary;
    StartXferEstablishes(s, msgs, c, stuck);
    StartXferSetsCursor(s, msgs, c, stuck);
    var h1 := FreedHw(s.h, c, stuck);
    var t := State(Submit(s.d, msgs, c.readBroken), ReinitHw(ClearHistory(h1), c.clkOk));
    assert StartXfer(s, msgs, c, stuck) == StartNext(t);
    SubmittedIsBoundary(s.d, h1, msgs, c);
    SubmitFields(s.d, msgs, c);
    ClearFields(h1, c.clkOk);
    ReinitKeepsBus(s.h, c.clkOk);
    SilentAlways(msgs);
    BoundaryTx(t, 0);
    StartSilent(t, 0);
    DynamicNeverWaits(t);
    StartNextFrame(t);
    assert j == 0 ==> msgs[0].rd by { EmptyIsRead(msgs[j]); }
  }

  lemma EmptyIsRead(m: Msg)
    requires EmptyRead(m)
    ensures m.rd && m.len == 0
  {
  }

  lemma ReinitKeepsBus(h: Hw, clkOk: bool)
    ensures ReinitHw(h, clkOk).chip == h.chip
  {
    hide ReinitHw;
    ReinitFrame(h, clkOk);
  }

  /** On a silent bus a dynamic-mode transfer with an empty read anywhere never returns
      success, whatever happens; except that a last one may be raced by the end of a
      message without bytes before it. */
  lemma EmptyReadNeverSucceeds(s: State, msgs: seq<Msg>, c: Config, stuck: (bool, bool),
                               events: seq<Event>, j: nat)
    requires msgs != [] && StartXferRet(s, c, stuck).Ok? && !s.d.blockRead
    requires UsesDynamic(msgs, c.readBroken) && ValidTransfer(msgs, true)
    requires s.h.chip.emptyRead == 0 && j < |msgs| && EmptyRead(msgs[j]) && !Raceable(msgs, j)
    ensures !XferRet(Run(StartXfer(s, msgs, c, stuck), events, c.clkOk)).Ok?
  {
    hide Run, StartXfer, Inv, EmptyRead, Raceable, UsesDynamic;
    HeldFromStart(s, msgs, c, stuck, j);
    HeldRuns(StartXfer(s, msgs, c, stuck), j, events, c.clkOk);
  }

  // ----- On a bus that clocks bytes all the same -----

  /** The empty read has begun and nothing has come yet. */
  predicate AwaitsStray(s: State, j: nat) {
    && s.d.tx == s.d.rx == Some(j) && |s.h.logs| == j + 1
    && s.h.rxFifo == [] && RxFull !in s.h.isr && s.d.status != Done
  }

  /** The empty read has been started: a byte has come for it, or it is awaited, or the
      transfer has ended without success. */
  predicate Spoiled(s: State, j: nat) {
    && j < |s.h.logs|
    && (s.h.logs[j].bytes != [] || AwaitsStray(s, j) || (s.d.tx.None? && s.d.status != Done))
  }

  /** It has not been started. */
  predicate Before(s: State, j: nat) {
    Inv(s) && !Astray(s.h) && s.d.status != Done && (s.d.tx.Some? ==> s.d.tx.value < j)
  }

  /** Message j is the first read for which bytes are clocked that it does not ask for. */
  predicate FirstClocked(sent: seq<Msg>, dynamic: bool, emptyRead: nat, j: nat) {
    && j < |sent| && ClockedEmpty(sent[j], dynamic, emptyRead) && !Raceable(sent, j)
    && !sent[j].recvLen
    && forall k :: 0 <= k < j ==> !ClockedEmpty(sent[k], dynamic, emptyRead)
  }

  predicate SpoilInv(s: State, j: nat) {
    && Cursor(s) && FirstClocked(s.d.sent, s.d.dynamic, s.h.chip.emptyRead, j)
    && (s.h.timedOut || Spoiled(s, j) || Before(s, j))
  }

  /** The handler opens at most one log, and touches no other. */
  lemma ProcessLogs(s: State, clkOk: bool)
    ensures var p, r := ProcessPass(s, clkOk), Process(s, clkOk);
            && p.s.h.logs == s.h.logs
            && (r.h.logs == s.h.logs || (p.more && r.h.logs == s.h.logs + [ReadLog([], [])]))
  {
    hide ProcessPass, StartNext, NoRxFullBit;
    PassLogs(s, clkOk);
    var p := ProcessPass(s, clkOk);
    var s1 := State(p.s.d, WriteIisr(p.s.h, ClearWord(p, NoRxFullBit(s))));
    if s1.d.tx.None? {
      StartNone(s1);
    }
    StartNextFrame(s1);
  }

  lemma PassLogs(s: State, clkOk: bool)
    ensures ProcessPass(s, clkOk).s.h.logs == s.h.logs
  {
    hide Branches, ReinitHw;
    BranchesLogs(s, Pend(s.h), {});
    BranchesLogs(s, Pend(s.h) + {RxFull}, {TxError});
    ReinitLogs(s.h, clkOk);
  }

  lemma ReinitLogs(h: Hw, clkOk: bool)
    ensures ReinitHw(h, clkOk).logs == h.logs
  {
    hide ReinitHw;
    ReinitFrame(h, clkOk);
  }

  lemma BranchesLogs(s: State, pend: set<Irq>, clr: set<Irq>)
    ensures Branches(s, pend, clr).s.h.logs == s.h.logs
  {
    hide RxPart, TxPart, BnbPart, FillState;
    RxPartFrame(s, pend, clr);
    var p1 := RxPart(s, pend, clr);
    TxPartCases(p1, pend);
    FillFrame(p1.s);
    BnbFrame(TxPart(p1, pend), pend);
  }

  /** While the stray byte is awaited the handler can do nothing but fail. */
  lemma AwaitingPass(s: State, j: nat, clkOk: bool)
    requires Cursor(s) && AwaitsStray(s, j)
    ensures var p := ProcessPass(s, clkOk);
            && !p.more && p.s.d.tx == p.s.d.rx == Some(j) && p.wake != Some(Done)
            && (p.wake.None? ==> p.s.h.rxFifo == [] && p.s.h.isr == s.h.isr && RxFull !in p.clr)
  {
    hide ReadRx, FillState, ReinitHw;
    assert Pend(s.h) * {TxEmpty, TxHalf} == {};
  }

  lemma AwaitingGoesOn(s: State, j: nat, clkOk: bool)
    requires Cursor(s) && AwaitsStray(s, j)
    ensures Spoiled(Process(s, clkOk), j)
  {
    hide ProcessPass, StartNext, NoRxFullBit, Cursor;
    AwaitingPass(s, j, clkOk);
    PassStatus(s, clkOk);
    PassLogs(s, clkOk);
    HandlerOnlyClears(s, clkOk);
  }

  lemma SpoiledStays(s: State, j: nat, clkOk: bool)
    requires Cursor(s) && Spoiled(s, j)
    ensures Spoiled(Process(s, clkOk), j)
  {
    hide Process, Cursor;
    if s.h.logs[j].bytes != [] {
      ProcessLogs(s, clkOk);
    } else if AwaitsStray(s, j) {
      AwaitingGoesOn(s, j, clkOk);
    } else {
      IdleHasNoRx(s);
      IdleProcessFrame(s, clkOk);
    }
  }

  /** The empty read begins. */
  lemma StrayBegins(s: State, j: nat)
    requires Boundary(s, j) && s.d.sent[j].rd
    ensures var r := StartNext(s); r.h.timedOut || AwaitsStray(r, j)
  {
    hide StartRecv, StartSend, Boundary;
    BoundaryTx(s, j);
    StartNextFrame(s);
    BoundaryFifo(s, j);
    RecvClears(Opened(s));
  }

  lemma BoundaryFifo(s: State, j: nat)
    requires Boundary(s, j)
    ensures s.h.rxFifo == []
  {
  }

  lemma RecvClears(s: State)
    ensures var r := StartRecv(s);
            r.h.timedOut || (r.h.rxFifo == s.h.rxFifo && RxFull !in r.h.isr)
  {
    hide RecvDynamicHw, RecvStandardHw, IrqClrEn, Poll, PollOk;
    var h, m, last := IrqDis(s.h, {TxHalf, TxEmpty}), TxMsg(s.d), s.d.nmsgs == 1;
    PollFrame(h);
    GivesUpTimesOut(s.h, h);
    RecvHwFrame(h, m, last);
    RecvHwFrame(Poll(h), m, last);
    ClrEnFields(RecvDynamicHw(h, m, last), {Bnb});
    ClrEnFields(RecvStandardHw(h, m), {Bnb});
    ClrEnFields(RecvStandardHw(Poll(h), m), {Bnb});
  }

  lemma BeforeGoesOn(s: State, j: nat, clkOk: bool)
    requires Before(s, j) && FirstClocked(s.d.sent, s.d.dynamic, s.h.chip.emptyRead, j)
    ensures var r := Process(s, clkOk); r.h.timedOut || Spoiled(r, j) || Before(r, j)
  {
    hide Process, ProcessPass, Inv, ClockedEmpty, Raceable, Boundary, NoRxFullBit;
    InvHasCursor(s);
    ProcessKeepsInv(s, clkOk);
    ProcessEmptyRead(s, clkOk);
    ProcessKeepsCursor(s, clkOk);
    if s.d.tx.None? {
      IdleHasNoRx(s);
      IdleProcessFrame(s, clkOk);
    } else {
      ClockedIsEmpty(s, j);
      HeldMoves(s, j, clkOk);
      if ProcessPass(s, clkOk).more {
        NextOrStray(s, j, clkOk);
      } else {
        PassKeepsAstray(s, clkOk);
      }
    }
  }

  lemma ClockedIsEmpty(s: State, j: nat)
    requires FirstClocked(s.d.sent, s.d.dynamic, s.h.chip.emptyRead, j)
    ensures s.d.sent[j].rd && s.d.sent[j].len == 0 && !Raceable(s.d.sent, j)
  {
    hide Raceable;
  }

  lemma PassKeepsAstray(s: State, clkOk: bool)
    requires !s.h.stray && !ProcessPass(s, clkOk).more
    ensures !Process(s, clkOk).h.stray
  {
    hide Process, ProcessPass;
    ProcessEmptyRead(s, clkOk);
  }

  lemma NextOrStray(s: State, j: nat, clkOk: bool)
    requires Before(s, j) && FirstClocked(s.d.sent, s.d.dynamic, s.h.chip.emptyRead, j)
    requires s.d.tx.Some? && ProcessPass(s, clkOk).more
    requires var r := Process(s, clkOk);
             Inv(r) && r.d.status != Done && (r.d.tx.None? || r.d.tx == Some(s.d.tx.value + 1))
    ensures var r := Process(s, clkOk);
            || r.h.timedOut
            || (if s.d.tx.value + 1 == j then Spoiled(r, j) else !r.h.stray)
  {
    hide Process, ProcessPass, Inv, Boundary, NoRxFullBit, StartNext, ClockedEmpty, Raceable;
    RacePass(s, clkOk);
    ProcessIs(s, clkOk);
    var i, p := s.d.tx.value + 1, ProcessPass(s, clkOk);
    var s1 := State(p.s.d, WriteIisr(p.s.h, ClearWord(p, NoRxFullBit(s))));
    SameBoundary(p.s, s1, i);
    BoundaryTx(s1, i);
    FinishFields(p, NoRxFullBit(s), StartNext(s1));
    ProcessEmptyRead(s, clkOk);
    InvHasCursor(s);
    PassKeepsCursor(s, clkOk);
    StartNextFrame(s1);
    if i == j {
      ClockedIsEmpty(s, j);
      StrayBegins(s1, i);
      SpoiledByStart(p, NoRxFullBit(s), StartNext(s1), j);
    } else {
      StartStray(s1);
    }
  }

  lemma SpoiledByStart(p: Pass, noRxFull: bool, s2: State, j: nat)
    requires p.more && (s2.h.timedOut || AwaitsStray(s2, j))
    requires s2 == StartNext(State(p.s.d, WriteIisr(p.s.h, ClearWord(p, noRxFull))))
    requires Finish(p, noRxFull).d.status != Done
    ensures var r := Finish(p, noRxFull); r.h.timedOut || Spoiled(r, j)
  {
    hide StartNext;
  }

  lemma StepSpoils(s: State, j: nat, e: Event, clkOk: bool)
    requires SpoilInv(s, j)
    ensures SpoilInv(Step(s, e, clkOk), j)
  {
    hide Process, Inv, FirstClocked, Cursor;
    StepKeepsCursor(s, e, clkOk);
    if e.Interrupt? {
      ProcessEmptyRead(s, clkOk);
      ProcessKeepsAstray(s, clkOk);
      if Before(s, j) {
        BeforeGoesOn(s, j, clkOk);
      } else if Spoiled(s, j) {
        SpoiledStays(s, j, clkOk);
      }
    } else {
      BusSpoils(s, j, e, clkOk);
    }
  }

  lemma BusSpoils(s: State, j: nat, e: Event, clkOk: bool)
    requires !e.Interrupt?
    ensures Spoiled(s, j) ==> Spoiled(Step(s, e, clkOk), j)
    ensures Before(s, j) ==> Before(Step(s, e, clkOk), j)
    ensures Step(s, e, clkOk).h.chip == s.h.chip
    ensures Step(s, e, clkOk).h.timedOut == s.h.timedOut
  {
    hide Inv;
    if Before(s, j) {
      StepKeepsInv(s, e, clkOk);
      BusKeepsAstray(s, e, clkOk);
    }
  }

  lemma {:induction false} RunSpoils(s: State, j: nat, events: seq<Event>, clkOk: bool)
    requires SpoilInv(s, j)
    ensures SpoilInv(Run(s, events, clkOk), j)
    decreases |events|
  {
    hide Step, SpoilInv;
    if events != [] {
      StepSpoils(s, j, events[0], clkOk);
      RunSpoils(Step(s, events[0], clkOk), j, events[1..], clkOk);
    }
  }

  lemma SpoilFromStart(s: State, msgs: seq<Msg>, c: Config, stuck: (bool, bool), j: nat)
    requires msgs != [] && StartXferRet(s, c, stuck).Ok? && !s.d.blockRead
    requires ValidTransfer(msgs, UsesDynamic(msgs, c.readBroken))
    requires FirstClocked(msgs, UsesDynamic(msgs, c.readBroken), s.h.chip.emptyRead, j)
    ensures SpoilInv(StartXfer(s, msgs, c, stuck), j)
  {
    hide Inv, StartNext, ReinitHw, ClearHistory, UsesDynamic, Submit, Boundary, ClockedEmpty, Raceable,
         Cursor;
    StartXferEstablishes(s, msgs, c, stuck);
    StartXferSetsCursor(s, msgs, c, stuck);
    var h1 := FreedHw(s.h, c, stuck);
    var t := State(Submit(s.d, msgs, c.readBroken), ReinitHw(ClearHistory(h1), c.clkOk));
    assert StartXfer(s, msgs, c, stuck) == StartNext(t);
    SubmittedIsBoundary(s.d, h1, msgs, c);
    SubmitFields(s.d, msgs, c);
    ClearFields(h1, c.clkOk);
    ReinitKeepsBus(s.h, c.clkOk);
    BoundaryTx(t, 0);
    StartNextFrame(t);
    StartStray(t);
    if j == 0 {
      ClockedIsEmpty(t, 0);
      StrayBegins(t, 0);
    }
  }

  lemma SpoiledIsNotDone(r: State, j: nat)
    requires SpoilInv(r, j) && !r.h.timedOut && r.d.status == Done
    ensures !AllDone(r)
  {
    hide Inv, Cursor, Encode;
  }

  lemma ClockedAsksNone(m: Msg, dynamic: bool, emptyRead: nat)
    requires ClockedEmpty(m, dynamic, emptyRead)
    ensures m.rd && m.len == 0
  {
  }

  lemma FindFirst(sent: seq<Msg>, dynamic: bool, emptyRead: nat, j: nat) returns (k: nat)
    requires j < |sent| && ClockedEmpty(sent[j], dynamic, emptyRead) && !Raceable(sent, j)
    requires ValidTransfer(sent, dynamic)
    ensures FirstClocked(sent, dynamic, emptyRead, k)
  {
    hide ClockedEmpty;
    k := 0;
    while !ClockedEmpty(sent[k], dynamic, emptyRead)
      invariant 0 <= k <= j
      invariant forall i :: 0 <= i < k ==> !ClockedEmpty(sent[i], dynamic, emptyRead)
      decreases j - k
    {
      k := k + 1;
    }
    assert ValidAt(sent, dynamic, k);
    ClockedAsksNone(sent[k], dynamic, emptyRead);
  }

  /** Where bytes are clocked for an empty read, in standard mode or on such a bus, a
      reported success is never true, whatever the list and the run; with the same
      exception. */
  lemma ClockedEmptyNeverDone(s: State, msgs: seq<Msg>, c: Config, stuck: (bool, bool),
                              events: seq<Event>, j: nat)
    requires msgs != [] && StartXferRet(s, c, stuck).Ok? && !s.d.blockRead
    requires ValidTransfer(msgs, UsesDynamic(msgs, c.readBroken)) && j < |msgs|
    requires ClockedEmpty(msgs[j], UsesDynamic(msgs, c.readBroken), s.h.chip.emptyRead)
    requires !Raceable(msgs, j)
    ensures var r := Run(StartXfer(s, msgs, c, stuck), events, c.clkOk);
            XferRet(r).Ok? ==> !AllDone(r)
  {
    hide Run, StartXfer, SpoilInv, UsesDynamic, ClockedEmpty, Raceable, AllDone;
    var k := FindFirst(msgs, UsesDynamic(msgs, c.readBroken), s.h.chip.emptyRead, j);
    SpoilFromStart(s, msgs, c, stuck, k);
    RunSpoils(StartXfer(s, msgs, c, stuck), k, events, c.clkOk);
    TimeOutLosesWords(s, msgs, c, stuck, events);
    var r := Run(StartXfer(s, msgs, c, stuck), events, c.clkOk);
    if XferRet(r).Ok? && !r.h.timedOut {
      SpoiledIsNotDone(r, k);
    }
  }

  // ----- A lone empty read -----

  /** A single empty read in dynamic mode, on a bus that clocks bytes for it: success is
      reported, and the byte is left in the FIFO. */
  lemma EmptyReadTakesByte(s: State, m: Msg, v: Byte, c: Config) returns (events: seq<Event>)
    requires StartXferRet(s, c, (false, false)).Ok? && s.h.isr == {} && !s.d.blockRead
    requires m.rd && !m.recvLen && m.len == 0 && !c.readBroken && s.h.chip.emptyRead > 0
    ensures var r := Run(StartXfer(s, [m], c, (false, false)), events, true);
            && XferRet(r) == Ok(1) && !r.h.timedOut && !r.d.warned && r.h.rxFifo == [v] && !AllDone(r)
  {
    hide Process, StartXfer, AllDone, Latch, ClockedRead;
    var s1 := StartXfer(s, [m], c, (false, false));
    ClockedReadStarts(s, m, c);
    var s2 := State(s1.d, Clock(s1.h, v));
    var s3 := State(s1.d, Latch(s2.h, {RxFull}));
    ClockedReadByte(s1, s3, m, v);
    ClockedReadEnds(s3, m, v);
    var s4 := Process(s3, true);
    ClockedReadReports(s4, m, v);
    RunOne(s1, ByteIn(v));
    RunInterrupt(s1, [ByteIn(v)], {RxFull});
    RunInterrupt(s1, [ByteIn(v)] + [IrqBits({RxFull})] + [Interrupt], {Bnb});
    events := [ByteIn(v)] + [IrqBits({RxFull})] + [Interrupt] + [IrqBits({Bnb})] + [Interrupt];
  }

  /** A single empty read in dynamic mode, begun. */
  predicate ClockedRead(s: State, m: Msg, fifo: seq<Byte>) {
    && s.d.sent == s.d.msgs == [m] && s.d.dynamic && s.d.tx == s.d.rx == Some(0) && s.d.nmsgs == 1
    && s.d.completed == 0 && !s.d.warned && !s.h.timedOut && !s.d.blockRead && s.d.actualLen == 0
    && s.d.rxPos == 0 && s.d.txPos == 0 && m.len == 0
    && s.h.rxFifo == fifo && s.h.rfd == 0 && RxFull in s.h.ier && Bnb in s.h.ier
    && |s.h.logs| == 1 && s.h.logs[0].bytes == fifo
  }

  lemma ClockedReadStarts(s: State, m: Msg, c: Config)
    requires StartXferRet(s, c, (false, false)).Ok? && s.h.isr == {} && !s.d.blockRead
    requires m.rd && !m.recvLen && m.len == 0 && !c.readBroken && s.h.chip.emptyRead > 0
    ensures var r := StartXfer(s, [m], c, (false, false));
            ClockedRead(r, m, []) && r.h.isr == {} && r.h.bus.Dyn?
  {
    assert UsesDynamic([m], c.readBroken);
    var s0 := State(Submit(s.d, [m], c.readBroken), ReinitHw(ClearHistory(s.h), true));
    assert StartXfer(s, [m], c, (false, false)) == StartRecv(Opened(s0));
    ReinitNothing(s.h);
    var h := IrqDis(OpenLog(s0.h), {TxHalf, TxEmpty});
    ClockedRequest(h, m);
    ClrEnFields(RecvDynamicHw(h, m, true), {Bnb});
    hide RecvDynamicHw, IrqClrEn, ReinitHw, ClearHistory, UsesDynamic;
  }

  lemma ReinitNothing(h: Hw)
    requires h.isr == {}
    ensures var r := ReinitHw(ClearHistory(h), true);
            && r.isr == {} && r.logs == [] && !r.timedOut && r.chip == h.chip
            && (ReinitRet(ClearHistory(h), true).Ok? ==> r.rxFifo == [])
  {
    hide ReinitHw;
    ReinitFrame(ClearHistory(h), true);
  }

  lemma ClockedRequest(h: Hw, m: Msg)
    requires h.isr == {} && m.len == 0 && h.chip.emptyRead > 0
    ensures var r := RecvDynamicHw(h, m, true);
            && r.isr == {} && r.rfd == 0 && r.bus.Dyn? && r.rxFifo == h.rxFifo && r.logs == h.logs
            && r.timedOut == h.timedOut && RxFull in r.ier && Bnb in r.ier
  {
    hide IrqClrEn, OrBit, AddrByte;
    RecvHwFrame(h, m, true);
    ClrEnFields(h, {RxFull, TxError});
    ClrEnFields(RequestRead(IrqClrEn(h, {RxFull, TxError}), m, true), {Bnb});
  }

  lemma ClockedReadByte(s1: State, s3: State, m: Msg, v: Byte)
    requires ClockedRead(s1, m, []) && s1.h.isr == {} && s1.h.bus.Dyn?
    requires s3 == State(s1.d, Latch(Clock(s1.h, v), {RxFull}))
    ensures ClockedRead(s3, m, [v]) && s3.h.isr == {RxFull}
  {
  }

  lemma ClockedReadEnds(s: State, m: Msg, v: Byte)
    requires ClockedRead(s, m, [v]) && s.h.isr == {RxFull}
    ensures var r := Process(s, true);
            && r.d == s.d.(rx := None) && r.h.isr == {} && r.h.rxFifo == [v] && Bnb in r.h.ier
            && r.h.timedOut == s.h.timedOut && r.h.logs == s.h.logs
  {
    hide Process;
    assert Pend(s.h) == {RxFull};
    OnlyReadBranch(s, true);
    assert RxMsg(s.d) == m;
    var x := ReadRx(RxView(s), true, true);
    assert x == RxView(s).(rfd := x.rfd);
    assert s.d.msgs[0 := m] == s.d.msgs;
  }

  lemma ClockedReadReports(s: State, m: Msg, v: Byte)
    requires s.h.isr == {} && s.h.rxFifo == [v] && Bnb in s.h.ier && !s.h.timedOut
    requires s.d.sent == s.d.msgs == [m] && s.d.tx == Some(0) && s.d.rx.None? && s.d.nmsgs == 1
    requires s.d.completed == 0 && !s.d.warned && !s.d.blockRead && s.d.txPos == 0 && m.len == 0
    requires |s.h.logs| == 1 && s.h.logs[0].bytes == [v] && m.rd && !m.recvLen
    ensures var r := Process(State(s.d, Latch(s.h, {Bnb})), true);
            && XferRet(r) == Ok(1) && !r.h.timedOut && !r.d.warned && r.h.rxFifo == [v] && !AllDone(r)
  {
    hide Process;
    var t := State(s.d, Latch(s.h, {Bnb}));
    assert Pend(t.h) == {Bnb};
    StopFields(t);
    assert !MsgDone(m, m, s.h.logs[0]);
  }

  lemma StopFields(s: State)
    requires Pend(s.h) == {Bnb} && s.d.tx.Some? && s.d.rx.None? && s.d.nmsgs == 1
    requires !s.d.blockRead && TxSpace(s.d) == 0
    ensures var r := Process(s, true);
            && r.d.completed == s.d.completed + 1 && r.d.status == Done && r.d.msgs == s.d.msgs
            && r.d.warned == s.d.warned && r.d.sent == s.d.sent && r.d.dynamic == s.d.dynamic
            && r.h.logs == s.h.logs && r.h.timedOut == s.h.timedOut && r.h.dtr == s.h.dtr
            && r.h.rxFifo == s.h.rxFifo
  {
    hide Process, StartNext;
    OnlyBnbBranch(s, true);
  }
}
