/** The end of a message in the same pass as a free bus. Which message lists can be
    reported as done although they are not. */
module XiicRace {
  import opened Wrappers
  import opened XiicDevice
  import opened XiicSpec
  import opened XiicEncode
  import opened XiicReading
  import opened XiicCursor
  import opened XiicTransfer
  import opened XiicHandler
  import opened XiicReads
  import opened XiicStop
  import opened XiicProgress
  import opened XiicRuns
  import opened XiicWaits
  import opened XiicBnb

  // ----- The racing pass -----

  /** The bits that end the current message, and "bus not busy". */
  function RaceBits(s: State): set<Irq> {
    if s.d.rx.Some? then {RxFull, Bnb} else {TxEmpty, Bnb}
  }

  /** The bus has sent what is left of a read, or taken what is left of a write. */
  function Settle(s: State, slaves: Slaves): Hw {
    if s.d.rx.Some? && s.d.tx.Some? then Feed(s.h, slaves(s.d.tx.value)) else Drain(s.h, 0)
  }

  lemma SettleIsRun(s: State, slaves: Slaves) returns (events: seq<Event>)
    requires s.d.tx.Some?
    ensures Run(s, events, true) == State(s.d, Settle(s, slaves))
  {
    if s.d.rx.Some? {
      events := FeedIsRun(s, slaves(s.d.tx.value));
    } else {
      events := [TxLevel(0)];
      RunOne(s, TxLevel(0));
    }
  }

  /** The state in which the handler finds both. */
  function Racing(s: State, slaves: Slaves): State {
    State(s.d, Latch(Settle(s, slaves), RaceBits(s)))
  }

  lemma RacingFrame(s: State, slaves: Slaves)
    requires Lively(s, slaves) && AboutToEnd(s, slaves) && s.d.nmsgs == 2
    ensures var t := Racing(s, slaves);
            && t.h == Settle(s, slaves).(isr := s.h.isr + RaceBits(s))
            && Settle(s, slaves).ier == s.h.ier && !Astray(t.h) && t.h.chip == s.h.chip
            && Settle(s, slaves).isr == s.h.isr && Settle(s, slaves).polls == s.h.polls
  {
    hide Reading, Encode, History, StopInTime, Feed, ReadRx;
    if s.d.rx.Some? {
      CalmFromLively(s, slaves);
      FeedReachesWatermark(s, s.d.tx.value, slaves(s.d.tx.value));
      FeedKeepsInv(s, slaves(s.d.tx.value));
    }
  }

  lemma RacingPends(s: State, slaves: Slaves)
    requires Lively(s, slaves) && AboutToEnd(s, slaves) && s.d.nmsgs == 2 && Bnb in s.h.ier
    ensures Pend(Racing(s, slaves).h) == RaceBits(s)
  {
    hide AboutToEnd, Settle;
    RacingFrame(s, slaves);
    assert (if s.d.rx.Some? then RxFull else TxEmpty) in s.h.ier by { RoundEnables(s, slaves); }
    assert (s.h.isr + RaceBits(s)) * s.h.ier == Pend(s.h) + RaceBits(s) * s.h.ier;
    assert RaceBits(s) * s.h.ier == RaceBits(s);
  }

  lemma RoundEnables(s: State, slaves: Slaves)
    requires Lively(s, slaves) && AboutToEnd(s, slaves)
    ensures s.d.rx.Some? ==> RxFull in s.h.ier
    ensures s.d.rx.None? ==> TxEmpty in s.h.ier
  {
    hide Reading, Encode, History, StopInTime, ReadRx;
    LastMessage(s, s.d.tx.value);
  }

  /** The pass goes on. */
  lemma RacingAdvances(s: State, slaves: Slaves, clkOk: bool)
    requires Lively(s, slaves) && AboutToEnd(s, slaves) && s.d.nmsgs == 2 && Bnb in s.h.ier
    ensures ProcessPass(Racing(s, slaves), clkOk).more
  {
    hide Lively, Settle, ReadRx, FillState, Feed, RaceBits;
    var t := Racing(s, slaves);
    RacingPends(s, slaves);
    RacingFrame(s, slaves);
    RaceBitsFields(s);
    LivelyCursor(s, slaves);
    PassOfRace(t, clkOk);
    if s.d.rx.Some? {
      ReadRaceAdvances(s, t, slaves);
    } else {
      WriteRaceAdvances(t);
    }
  }

  lemma RaceBitsFields(s: State)
    ensures RaceBits(s) == if s.d.rx.Some? then {RxFull, Bnb} else {TxEmpty, Bnb}
    ensures s.d.rx.Some? ==> RaceBits(s) * {TxEmpty, TxHalf} == {}
    ensures s.d.rx.None? ==> RaceBits(s) * {TxEmpty, TxHalf} == {TxEmpty}
  {
  }

  lemma PassOfRace(t: State, clkOk: bool)
    requires Pend(t.h) == {RxFull, Bnb} || Pend(t.h) == {TxEmpty, Bnb}
    ensures ProcessPass(t, clkOk) == Branches(t, Pend(t.h), {})
  {
    hide Branches;
  }

  lemma ReadRaceAdvances(s: State, t: State, slaves: Slaves)
    requires s.d.rx.Some? && AboutToEnd(s, slaves) && s.d.nmsgs == 2
    requires t.d == s.d && t.h == Settle(s, slaves).(isr := t.h.isr)
    ensures Branches(t, {RxFull, Bnb}, {}).more
  {
    hide ReadRx, TrimLen, FillState, BnbPart, Feed;
    assert RxView(t) == RxView(State(s.d, Feed(s.h, slaves(s.d.tx.value))));
    assert {RxFull, Bnb} * {TxEmpty, TxHalf} == {};
    BnbKeepsMore(TxPart(RxPart(t, {RxFull, Bnb}, {}), {RxFull, Bnb}), {RxFull, Bnb});
  }

  lemma WriteRaceAdvances(t: State)
    requires t.d.rx.None? && t.d.tx.Some? && TxSpace(t.d) == 0 && t.d.nmsgs == 2
    ensures Branches(t, {TxEmpty, Bnb}, {}).more
  {
    hide ReadRx, TrimLen, FillState, BnbPart;
    assert TxEmpty in {TxEmpty, Bnb} * {TxEmpty, TxHalf};
    BnbKeepsMore(TxPart(RxPart(t, {TxEmpty, Bnb}, {}), {TxEmpty, Bnb}), {TxEmpty, Bnb});
  }

  // ----- Silent buses do not lead astray -----

  lemma StartSilent(s: State, i: nat)
    requires Boundary(s, i) && SilentWhenEmpty(s.d.sent, s.d.dynamic, s.h.chip.emptyRead)
    ensures StartNext(s).h.stray == s.h.stray || StartNext(s).h.timedOut
    ensures StartNext(s).h.stray ==> s.h.stray
    ensures StartNext(s).h.chip == s.h.chip
  {
    hide StartNext, Boundary, ClockedEmpty;
    BoundaryTx(s, i);
    StartStray(s);
  }

  lemma ProcessEmptyRead(s: State, clkOk: bool)
    ensures Process(s, clkOk).h.chip == s.h.chip
    ensures s.h.drains == [] ==> Process(s, clkOk).h.drains == []
    ensures !ProcessPass(s, clkOk).more ==> Process(s, clkOk).h.stray == s.h.stray
    ensures ProcessPass(s, clkOk).s.h.chip == s.h.chip
  {
    hide Branches, StartNext, NoRxFullBit, IsErrorPend, EarlyRxDone, ReinitHw, ClearWord;
    var pend := Pend(s.h);
    ReinitFrame(s.h, clkOk);
    BranchesEmptyRead(s, pend, {});
    BranchesEmptyRead(s, pend + {RxFull}, {TxError});
    BranchesKeepAstray(s, pend, {});
    BranchesKeepAstray(s, pend + {RxFull}, {TxError});
    var p := ProcessPass(s, clkOk);
    var s1 := State(p.s.d, WriteIisr(p.s.h, ClearWord(p, NoRxFullBit(s))));
    if s1.d.tx.Some? {
      StartStray(s1);
    } else {
      StartNone(s1);
    }
  }

  lemma StartNone(s: State)
    requires s.d.tx.None?
    ensures StartNext(s) == s
  {
  }

  lemma StepDrains(s: State, e: Event, clkOk: bool)
    ensures var r := Step(s, e, clkOk).h;
            r.chip == s.h.chip && (s.h.drains == [] ==> r.drains == [])
  {
    hide Process, NackNext, Watermark;
    if e.Interrupt? {
      ProcessEmptyRead(s, clkOk);
    }
  }

  /** No run changes the controller's make; and if every drain of the RX FIFO is in time,
      that stays so. */
  lemma {:induction false} RunDrains(s: State, events: seq<Event>, clkOk: bool)
    ensures var r := Run(s, events, clkOk).h;
            r.chip == s.h.chip && (s.h.drains == [] ==> r.drains == [])
    decreases |events|
  {
    hide Step;
    if events != [] {
      StepDrains(s, events[0], clkOk);
      RunDrains(Step(s, events[0], clkOk), events[1..], clkOk);
    }
  }

  lemma BranchesEmptyRead(s: State, pend: set<Irq>, clr: set<Irq>)
    ensures var h := Branches(s, pend, clr).s.h;
            h.chip == s.h.chip && (s.h.drains == [] ==> h.drains == [])
  {
    hide RxPart, TxPart, BnbPart, FillState;
    RxPartFrame(s, pend, clr);
    var p1 := RxPart(s, pend, clr);
    TxPartCases(p1, pend);
    FillFrame(p1.s);
    BnbFrame(TxPart(p1, pend), pend);
  }

  /** In a list whose empty reads get no byte, a run goes astray by time-outs only. */
  lemma ProcessSilent(s: State, clkOk: bool)
    requires Inv(s) && !Astray(s.h) && SilentWhenEmpty(s.d.sent, s.d.dynamic, s.h.chip.emptyRead)
    ensures !Process(s, clkOk).h.stray
  {
    hide Process, ProcessPass, Inv, Boundary, SilentWhenEmpty, NoRxFullBit;
    ProcessEmptyRead(s, clkOk);
    InvHasCursor(s);
    if s.d.tx.Some? && ProcessPass(s, clkOk).more {
      RacePass(s, clkOk);
      var p := ProcessPass(s, clkOk);
      var s1 := State(p.s.d, WriteIisr(p.s.h, ClearWord(p, NoRxFullBit(s))));
      SameBoundary(p.s, s1, s.d.tx.value + 1);
      PassKeepsCursor(s, clkOk);
      StartSilent(s1, s.d.tx.value + 1);
      ProcessIs(s, clkOk);
      FinishFields(p, NoRxFullBit(s), StartNext(s1));
    } else if s.d.tx.None? {
      IdleHasNoRx(s);
      IdleProcessFrame(s, clkOk);
    }
  }

  lemma StepSilent(s: State, e: Event, clkOk: bool)
    requires Inv(s) && !Astray(s.h) && SilentWhenEmpty(s.d.sent, s.d.dynamic, s.h.chip.emptyRead)
    ensures var r := Step(s, e, clkOk); !r.h.stray && r.h.chip == s.h.chip
    ensures s.d.dynamic ==> !Astray(Step(s, e, clkOk).h)
  {
    hide Process, Inv, SilentWhenEmpty;
    if e.Interrupt? {
      ProcessSilent(s, clkOk);
      ProcessEmptyRead(s, clkOk);
      ProcessKeepsAstray(s, clkOk);
    }
  }

  /** The messages after the current one are as they were submitted. */
  predicate Unstarted(d: Drv) {
    d.tx.Some? ==> |d.msgs| == |d.sent|
                   && forall j :: d.tx.value < j < |d.msgs| ==> d.msgs[j] == d.sent[j]
  }

  /** No byte has been clocked for an empty read, and none will be: whatever time-outs there
      are, and whether or not a block-read flag is left over. */
  predicate NeverStray(s: State) {
    && Cursor(s) && Unstarted(s.d) && !s.h.stray
    && SilentWhenEmpty(s.d.sent, s.d.dynamic, s.h.chip.emptyRead)
  }

  lemma RxUnstarted(s: State, pend: set<Irq>, clr: set<Irq>)
    requires CursorOf(s.d) && Unstarted(s.d)
    ensures var d := RxPart(s, pend, clr).s.d;
            |d.msgs| == |s.d.msgs| && d.sent == s.d.sent
            && (s.d.tx.Some? ==> forall j :: s.d.tx.value < j < |d.msgs| ==> d.msgs[j] == d.sent[j])
  {
    hide ReadRx, TrimLen, Left;
  }

  lemma BranchesUnstarted(s: State, pend: set<Irq>, clr: set<Irq>)
    requires CursorOf(s.d) && Unstarted(s.d)
    ensures var d := Branches(s, pend, clr).s.d;
            |d.msgs| == |s.d.msgs| && d.sent == s.d.sent
            && (s.d.tx.Some? ==> forall j :: s.d.tx.value < j < |d.msgs| ==> d.msgs[j] == d.sent[j])
  {
    hide RxPart, TxPart, BnbPart, FillState, CursorOf, Unstarted;
    RxUnstarted(s, pend, clr);
    var p1 := RxPart(s, pend, clr);
    TxPartCases(p1, pend);
    FillFrame(p1.s);
    AdvanceKeeps(p1.s.d);
    BnbKeepsData(TxPart(p1, pend), pend);
  }

  lemma AdvanceKeeps(d: Drv)
    ensures Advance(d).msgs == d.msgs && Advance(d).sent == d.sent
  {
  }

  lemma PassUnstarted(s: State, clkOk: bool)
    requires CursorOf(s.d) && Unstarted(s.d)
    ensures var d := ProcessPass(s, clkOk).s.d;
            |d.msgs| == |s.d.msgs| && d.sent == s.d.sent
            && (s.d.tx.Some? ==> forall j :: s.d.tx.value < j < |d.msgs| ==> d.msgs[j] == d.sent[j])
  {
    hide Branches, ReinitHw, EarlyRxDone, CursorOf;
    BranchesUnstarted(s, Pend(s.h), {});
    BranchesUnstarted(s, Pend(s.h) + {RxFull}, {TxError});
  }

  lemma ProcessNeverStray(s: State, clkOk: bool)
    requires NeverStray(s)
    ensures NeverStray(Process(s, clkOk))
  {
    hide ProcessPass, StartNext, NoRxFullBit, ClockedEmpty, ClearWord;
    CursorIsQuiet(s);
    PassKeepsCursor(s, clkOk);
    PassUnstarted(s, clkOk);
    ProcessKeepsCursor(s, clkOk);
    ProcessEmptyRead(s, clkOk);
    var p := ProcessPass(s, clkOk);
    if p.more {
      var s1 := State(p.s.d, WriteIisr(p.s.h, ClearWord(p, NoRxFullBit(s))));
      StartNextFrame(s1);
      StartStray(s1);
      NextIsSilent(s, s1);
      PassStray(s, clkOk);
    }
  }

  lemma NextIsSilent(s: State, s1: State)
    requires NeverStray(s) && s.d.tx.Some? && s.d.nmsgs > 1 && s1.d.tx == Some(s.d.tx.value + 1)
    requires s1.d.sent == s.d.sent && |s1.d.msgs| == |s.d.msgs| && s1.d.dynamic == s.d.dynamic
    requires forall j :: s.d.tx.value < j < |s1.d.msgs| ==> s1.d.msgs[j] == s1.d.sent[j]
    ensures !ClockedEmpty(TxMsg(s1.d), s1.d.dynamic, s.h.chip.emptyRead)
  {
    hide ClockedEmpty;
    assert TxMsg(s1.d) == s.d.sent[s.d.tx.value + 1];
  }

  lemma PassStray(s: State, clkOk: bool)
    ensures ProcessPass(s, clkOk).s.h.stray == s.h.stray
  {
    hide Branches, ReinitHw, EarlyRxDone;
    ReinitFrame(s.h, clkOk);
    BranchesKeepAstray(s, Pend(s.h), {});
    BranchesKeepAstray(s, Pend(s.h) + {RxFull}, {TxError});
  }

  lemma {:induction false} RunNeverStray(s: State, events: seq<Event>, clkOk: bool)
    requires NeverStray(s)
    ensures NeverStray(Run(s, events, clkOk))
    decreases |events|
  {
    hide Process, SilentWhenEmpty;
    if events != [] {
      if events[0].Interrupt? {
        ProcessNeverStray(s, clkOk);
      }
      RunNeverStray(Step(s, events[0], clkOk), events[1..], clkOk);
    }
  }

  lemma InvUnstarted(s: State)
    requires Inv(s) && !Astray(s.h)
    ensures Unstarted(s.d)
  {
    hide Armed, Clean, WordsUpTo;
  }

  // ----- A run that ends in the race -----

  /** The last two messages are equally long. */
  predicate EqualEnd(msgs: seq<Msg>) {
    |msgs| >= 2 && msgs[|msgs| - 1].len == msgs[|msgs| - 2].len
  }

  /** With all waits in time a pass times out in none. */
  lemma ProcessInTime(s: State, clkOk: bool)
    requires Cursor(s) && HalfOff(s) && (s.d.dynamic || s.h.polls == [])
    ensures Process(s, clkOk).h.timedOut == s.h.timedOut
  {
    hide ProcessPass, StartNext, NoRxFullBit, Cursor, HalfOff;
    ProcessKeepsAstray(s, clkOk);
    if !s.d.dynamic {
      PassNeverWaits(s, clkOk);
      var p := ProcessPass(s, clkOk);
      StartInTime(State(p.s.d, WriteIisr(p.s.h, ClearWord(p, NoRxFullBit(s)))));
    }
  }

  lemma StartInTime(s: State)
    requires s.h.polls == []
    ensures StartNext(s).h.timedOut == s.h.timedOut
  {
    hide StartRecv, StartSend;
    RecvInTime(Opened(s));
    SendInTime(Opened(s));
  }

  lemma RecvInTime(s: State)
    requires s.h.polls == []
    ensures StartRecv(s).h.timedOut == s.h.timedOut
  {
    hide RecvDynamicHw, RecvStandardHw, IrqClrEn;
    var h, m, last := IrqDis(s.h, {TxHalf, TxEmpty}), TxMsg(s.d), s.d.nmsgs == 1;
    RecvHwFrame(h, m, last);
    RecvHwFrame(Poll(h), m, last);
    ClrEnFields(RecvDynamicHw(h, m, last), {Bnb});
    ClrEnFields(RecvStandardHw(h, m), {Bnb});
    ClrEnFields(RecvStandardHw(Poll(h), m), {Bnb});
  }

  lemma SendInTime(s: State)
    requires s.h.polls == []
    ensures StartSend(s).h.timedOut == s.h.timedOut
  {
    hide FillState, SendDynamicHw, SendStandardHw, SendStandardEndHw;
    var m, last, h := TxMsg(s.d), s.d.nmsgs == 1, AfterWait(s);
    var t := State(s.d, SendStandardHw(h, m));
    SendHwFrame(s.h, m, last, false);
    FillStatePends(State(s.d, SendDynamicHw(s.h, m, last)));
    SendHwFrame(h, m, last, false);
    FillStatePends(t);
    SendHwFrame(FillState(t).h, m, last, Msms in h.cr);
  }

  lemma InvHasHalfOff(u: State)
    requires Inv(u)
    ensures HalfOff(u)
  {
    hide Data, HalfOff;
  }

  lemma RacingReports(t: State, clkOk: bool)
    requires Inv(t) && !Astray(t.h) && t.d.tx.Some? && t.d.nmsgs == 2
    requires t.d.dynamic || t.h.polls == []
    requires ProcessPass(t, clkOk).more && Bnb in Pend(t.h) && EqualEnd(t.d.sent)
    requires SilentWhenEmpty(t.d.sent, t.d.dynamic, t.h.chip.emptyRead)
    ensures var r := Process(t, clkOk);
            && XferRet(r) == Ok(|t.d.sent|) && !Astray(r.h) && r.d.warned
            && (AllDone(r) <==> FitsAtOnce(t.d.sent[|t.d.sent| - 1]))
  {
    hide Process, ProcessPass, Inv, AllDone, FitsAtOnce, SilentWhenEmpty;
    InvHasCursor(t);
    InvHasHalfOff(t);
    RaceOutcome(t, clkOk);
    ProcessInTime(t, clkOk);
    StepSilent(t, Interrupt, clkOk);
    ProcessKeepsCursor(t, clkOk);
    SuccessIffComplete(t, clkOk);
  }

  /** A run to the end of the last message but one. */
  lemma RunToLastButOne(s: State, msgs: seq<Msg>, c: Config, slaves: Slaves)
      returns (t: State, events: seq<Event>)
    requires CanStart(s, msgs, c) && !s.d.blockRead && |msgs| >= 2 && ReadsAsk(msgs, |msgs| - 1)
    ensures Run(StartXfer(s, msgs, c, (false, false)), events, true) == t
    ensures Lively(t, slaves) && t.d.nmsgs == 2 && AboutToEnd(t, slaves) && t.d.sent == msgs
    ensures SeesFree(s.h, msgs, UsesDynamic(msgs, c.readBroken)) ==> Bnb in t.h.ier
  {
    hide StartXfer, Lively, BusRounds, Dead, UsesDynamic, SilentWhenEmpty, AboutToEnd, Run, ReadsAsk,
         RoundsBefore, CanStart, WriteUpTo, BnbStays;
    var s1 := StartXfer(s, msgs, c, (false, false));
    StartedIsLively(s, msgs, c, slaves);
    FewerAsk(msgs, 1, |msgs| - 1);
    MissingIsNat(s1, slaves);
    var n := ReachesLastButOne(s1, slaves, Missing(s1));
    t := BusRounds(s1, slaves, n);
    events := RoundsAreRun(s1, slaves, n);
    StartedBnb(s, msgs, c);
    RoundsKeepBnbOn(s1, slaves, n, BnbStays(s.h));
    LivelyCursor(t, slaves);
    LastButOne(t);
  }

  /** If the last two messages are equally long, every read before the last message asks for
      bytes, and "bus not busy" is enabled before the last message, there is a run in which
      the bus is seen free as the last message but one ends: success is reported, truly if
      and only if the last message is complete as soon as it is started. */
  lemma RaceRun(s: State, msgs: seq<Msg>, c: Config, slaves: Slaves) returns (events: seq<Event>)
    requires CanStart(s, msgs, c) && !s.d.blockRead && EqualEnd(msgs) && ReadsAsk(msgs, |msgs| - 1)
    requires SeesFree(s.h, msgs, UsesDynamic(msgs, c.readBroken))
    ensures var r := Run(StartXfer(s, msgs, c, (false, false)), events, true);
            && XferRet(r) == Ok(|msgs|) && !Astray(r.h) && r.d.warned
            && (AllDone(r) <==> FitsAtOnce(msgs[|msgs| - 1]))
  {
    hide StartXfer, Lively, SeesFree, UsesDynamic, SilentWhenEmpty, AboutToEnd, Run, Racing, ReadsAsk,
         AllDone, FitsAtOnce, RaceBits, Settle, Process, CanStart, Inv;
    var t, rounds := RunToLastButOne(s, msgs, c, slaves);
    LivelyCursor(t, slaves);
    LivelyIsQuiet(t, slaves);
    RacingFrame(t, slaves);
    RacingPends(t, slaves);
    RacingAdvances(t, slaves, true);
    LivelySilent(t, slaves);
    var feed := SettleIsRun(t, slaves);
    RacingIs(t, slaves);
    RacingInv(t, slaves, feed);
    BnbRaces(t);
    RacingReports(Racing(t, slaves), true);
    events := rounds + feed + [IrqBits(RaceBits(t))] + [Interrupt];
    var s1 := StartXfer(s, msgs, c, (false, false));
    RunAppends(s1, rounds, feed);
    RunInterrupt(s1, rounds + feed, RaceBits(t));
  }

  lemma LastButOne(t: State)
    requires Cursor(t) && t.d.nmsgs == 2
    ensures t.d.tx == Some(|t.d.sent| - 2)
  {
  }

  lemma BnbRaces(t: State)
    ensures Bnb in RaceBits(t)
  {
  }

  lemma LivelySilent(t: State, slaves: Slaves)
    requires Lively(t, slaves)
    ensures SilentWhenEmpty(t.d.sent, t.d.dynamic, t.h.chip.emptyRead)
  {
  }

  lemma RacingIs(t: State, slaves: Slaves)
    ensures Racing(t, slaves) == State(t.d, Latch(Settle(t, slaves), RaceBits(t)))
  {
    hide Settle, RaceBits;
  }

  lemma RacingInv(t: State, slaves: Slaves, feed: seq<Event>)
    requires Inv(t) && Run(t, feed, true) == State(t.d, Settle(t, slaves))
    ensures Inv(Racing(t, slaves))
  {
    hide Inv, Settle, Latch;
    RunKeepsInv(t, feed, true);
    LatchKeepsInv(State(t.d, Settle(t, slaves)), RaceBits(t));
  }

  lemma FewerAsk(msgs: seq<Msg>, a: int, b: int)
    requires a <= b && ReadsAsk(msgs, b)
    ensures ReadsAsk(msgs, a)
  {
  }
}
