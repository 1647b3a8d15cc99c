/** The interrupt handler on its own: which interrupt bits it clears, what a "TX
    error" at the end of a read amounts to, and exactly when reporting success in
    the same pass as going on to the next message is wrong. */
module XiicHandler {
  import opened Wrappers
  import opened XiicDevice
  import opened XiicSpec
  import opened XiicEncode
  import opened XiicReading
  import opened XiicCursor
  import opened XiicTransfer

  // ----- IISR is toggle-on-write -----

  lemma BranchesClearPending(s: State, pend: set<Irq>, clr: set<Irq>)
    ensures Branches(s, pend, clr).clr <= clr + (pend * {RxFull, TxEmpty, TxHalf, Bnb})
                                         + (if RxFull in pend then s.h.isr * {TxError} else {})
  {
    hide ReadRx, FillState, TrimLen, DrainRx, WithRx, IrqDis;
  }

  lemma {:induction false} FillOnlySetsIsr(j: TxJob, x: TxIo, n: int)
    ensures x.isr <= FillBytes(j, x, n).isr <= x.isr + {TxEmpty}
    decreases n
  {
    if n > 0 && !FillGivesUp(j, x) {
      FillOnlySetsIsr(j, FillByte(j, x), n - 1);
    }
  }

  lemma BranchesKeepIsr(s: State, pend: set<Irq>, clr: set<Irq>)
    ensures s.h.isr <= Branches(s, pend, clr).s.h.isr <= s.h.isr + {TxEmpty}
  {
    hide RxPart, TxPart, BnbPart;
    var p1 := RxPart(s, pend, clr);
    RxPartKeepsIsr(s, pend, clr);
    TxPartKeepsIsr(p1, pend);
    BnbFrame(TxPart(p1, pend), pend);
  }

  lemma RxPartKeepsIsr(s: State, pend: set<Irq>, clr: set<Irq>)
    ensures RxPart(s, pend, clr).s.h.isr == s.h.isr
  {
    hide ReadRx, TrimLen;
  }

  lemma TxPartKeepsIsr(p: Pass, pend: set<Irq>)
    ensures p.s.h.isr <= TxPart(p, pend).s.h.isr <= p.s.h.isr + {TxEmpty}
  {
    hide FillState, TxPart;
    TxPartCases(p, pend);
    FillKeepsIsr(p.s);
  }

  lemma FillKeepsIsr(s: State)
    ensures s.h.isr <= FillState(s).h.isr <= s.h.isr + {TxEmpty}
  {
    FillOnlySetsIsr(JobOf(s.d), TxView(s), Min(TxFifoSpace(s.h), TxMsg(s.d).len - s.d.txPos));
  }

  /** For every state of driver and device and on every path, the value written to
      IISR at exit is a subset of the bits read at entry, and of those set at the
      time of the write: the write only ever clears bits. */
  lemma HandlerOnlyClears(s: State, clkOk: bool)
    ensures var p := ProcessPass(s, clkOk);
            var word := ClearWord(p, NoRxFullBit(s));
            && word <= s.h.isr
            && WriteIisr(p.s.h, word).isr == p.s.h.isr - word
  {
    var pend := Pend(s.h);
    var p := ProcessPass(s, clkOk);
    var word := ClearWord(p, NoRxFullBit(s));
    if !IsErrorPend(pend) {
      BranchesClearPending(s, pend, {});
      BranchesKeepIsr(s, pend, {});
    } else if EarlyRxDone(s, pend) {
      BranchesClearPending(s, pend + {RxFull}, {TxError});
      BranchesKeepIsr(s, pend + {RxFull}, {TxError});
      assert TxError in s.h.isr;
    }
    assert word <= s.h.isr && word <= p.s.h.isr;
  }

  /** An RX_FULL that was served is clear after the write, whether it was enabled, or only
      latched when the rest of the read was found in the FIFO, or not even that. */
  lemma ServedRxIsCleared(s: State, clkOk: bool)
    requires ArbLost !in Pend(s.h)
    requires RxFull in Pend(s.h) || (IsErrorPend(Pend(s.h)) && EarlyRxDone(s, Pend(s.h)))
    ensures var p := ProcessPass(s, clkOk);
            RxFull !in WriteIisr(p.s.h, ClearWord(p, NoRxFullBit(s))).isr
  {
    hide Branches, EarlyRxDone;
    var pend, clr := Pend(s.h), if IsErrorPend(Pend(s.h)) then {TxError} else {};
    HandlerOnlyClears(s, clkOk);
    BranchesKeepIsr(s, pend + {RxFull}, clr);
    RxIsServed(s, pend + {RxFull}, clr);
    assert RxFull in pend ==> pend + {RxFull} == pend;
  }

  lemma RxIsServed(s: State, pend: set<Irq>, clr: set<Irq>)
    requires RxFull in pend
    ensures RxFull in Branches(s, pend, clr).clr
  {
    hide ReadRx, FillState, TrimLen, DrainRx, WithRx, IrqDis;
  }

  // ----- "TX error" before RX_FULL -----

  /** The same state with RX_FULL latched as well. */
  function WithRxFull(s: State): State {
    State(s.d, s.h.(isr := s.h.isr + {RxFull}))
  }

  lemma ReadBranchOnly(s: State, pend: set<Irq>, clr: set<Irq>)
    requires pend * {TxEmpty, TxHalf} == {} && RxFull in pend && s.d.rx.Some?
    ensures Branches(s, pend, clr) == BnbPart(RxPart(s, pend, clr), pend)
  {
  }

  /** With no arbitration loss and the rest of the message in the FIFO, a TX_ERROR
      alone is handled like TX_ERROR together with RX_FULL: the same buffers, cursor,
      count and decision to go on. If no block count is pending the read is
      finished, and then the two runs end in exactly the same state. */
  lemma EarlyEqualsLate(s: State, clkOk: bool)
    requires Cursor(s) && s.d.rx.Some?
    requires RxFull in s.h.ier && RxFull !in s.h.isr
    requires TxError in Pend(s.h) && ArbLost !in Pend(s.h)
    requires s.h.rxFifo != [] && |s.h.rxFifo| >= RxSpace(s.d) > 0
    requires s.d.rxPos + RxSpace(s.d) <= |RxMsg(s.d).buf|
    ensures var p, q := ProcessPass(s, clkOk), ProcessPass(WithRxFull(s), clkOk);
            p.s.d == q.s.d && p.more == q.more && p.wake == q.wake
            && p.s.h == q.s.h.(isr := p.s.h.isr)
    ensures s.d.dynamic || !RxMsg(s.d).recvLen ==>
              && ProcessPass(s, clkOk).s.d.rx.None?
              && Process(s, clkOk) == Process(WithRxFull(s), clkOk)
  {
    var t := WithRxFull(s);
    var pend := Pend(s.h) + {RxFull};
    assert Pend(t.h) == pend;
    assert pend * {TxEmpty, TxHalf} == {};
    ReadBranchOnly(s, pend, {TxError});
    ReadBranchOnly(t, pend, {});
    SameReadBranch(s, pend);
    var p, q := Branches(s, pend, {TxError}), Branches(t, pend, {});
    if s.d.dynamic || !RxMsg(s.d).recvLen {
      EarlyReadFinishes(RxView(s), s.d.dynamic, s.d.nmsgs == 1);
      SameClearing(s, p, q);
    }
  }

  lemma SameReadBranch(s: State, pend: set<Irq>)
    requires s.d.rx.Some? && RxFull in pend && TxError in s.h.isr
    ensures var p, q := BnbPart(RxPart(s, pend, {TxError}), pend),
                        BnbPart(RxPart(WithRxFull(s), pend, {}), pend);
            && p.s == State(q.s.d, q.s.h.(isr := s.h.isr)) && q.s.h.isr == s.h.isr + {RxFull}
            && p.more == q.more && p.wake == q.wake
            && (Left(ReadRx(RxView(s), s.d.dynamic, s.d.nmsgs == 1)) == 0 ==>
                  p.clr == q.clr && RxFull in p.clr && p.s.d.rx.None?)
  {
    var p1, q1 := RxPart(s, pend, {TxError}), RxPart(WithRxFull(s), pend, {});
    SameRxPart(s, pend, p1, q1);
    SameBnbPart(s.h.isr, p1, q1, pend);
  }

  lemma SameRxPart(s: State, pend: set<Irq>, p: Pass, q: Pass)
    requires s.d.rx.Some? && RxFull in pend && TxError in s.h.isr
    requires p == RxPart(s, pend, {TxError}) && q == RxPart(WithRxFull(s), pend, {})
    ensures p.s == State(q.s.d, q.s.h.(isr := s.h.isr)) && q.s.h.isr == s.h.isr + {RxFull}
    ensures p.more == q.more && p.wake == q.wake && p.jumped == q.jumped
    ensures Left(ReadRx(RxView(s), s.d.dynamic, s.d.nmsgs == 1)) == 0 ==>
              p.clr == q.clr && RxFull in p.clr && p.s.d.rx.None?
  {
    hide ReadRx, TrimLen, WithRx, Left, RxView, WithRxFull;
    SameView(s);
    var x := ReadRx(RxView(s), s.d.dynamic, s.d.nmsgs == 1);
    LatchedView(s, x);
    LatchedView(s, TrimLen(x));
    assert {RxFull} + (s.h.isr * {TxError}) == {RxFull, TxError};
    assert (s.h.isr + {RxFull}) * {TxError} == {TxError};
  }

  lemma SameView(s: State)
    ensures var t := WithRxFull(s);
            RxView(t) == RxView(s) && t.d == s.d && t.h == s.h.(isr := s.h.isr + {RxFull})
  {
  }

  lemma LatchedView(s: State, x: RxIo)
    ensures var a, b := WithRx(s, x), WithRx(WithRxFull(s), x);
            a.d == b.d && a.h == b.h.(isr := s.h.isr) && b.h.isr == s.h.isr + {RxFull}
  {
  }

  lemma SameBnbPart(isr: set<Irq>, p: Pass, q: Pass, pend: set<Irq>)
    requires p.s == State(q.s.d, q.s.h.(isr := isr))
    requires p.more == q.more && p.wake == q.wake && p.jumped == q.jumped
    ensures var a, b := BnbPart(p, pend), BnbPart(q, pend);
            && a.s == State(b.s.d, b.s.h.(isr := isr)) && b.s.h.isr == q.s.h.isr
            && a.more == b.more && a.wake == b.wake && a.s.d.rx == p.s.d.rx
            && p.clr <= a.clr && (p.clr == q.clr ==> a.clr == b.clr)
  {
    hide IrqDis, BnbPart, Looked, Verdict;
    BnbIs(p, pend);
    BnbIs(q, pend);
    SameDisabled(q.s.h, isr);
  }

  /** The "bus not busy" branch looks at the block-read flag, */
  function Looked(d: Drv): Drv {
    if d.tx.Some? && d.blockRead then d.(blockRead := false, txPos := TxMsg(d).len) else d
  }

  /** and then decides. */
  function Verdict(d: Drv): Status {
    if d.nmsgs == 1 && d.rx.None? && TxSpace(d) == 0 then Done else Error
  }

  lemma BnbIs(p: Pass, pend: set<Irq>)
    ensures BnbPart(p, pend)
         == if p.jumped || Bnb !in pend then p
            else
              var d := Looked(p.s.d);
              var q := p.(clr := p.clr + {Bnb}, s := State(d, IrqDis(p.s.h, {Bnb})));
              if d.tx.None? then q.(jumped := true) else q.(wake := Some(Verdict(d)))
    ensures Looked(p.s.d).tx == p.s.d.tx && Looked(p.s.d).rx == p.s.d.rx
  {
    hide IrqDis, TxMsg, TxSpace;
  }

  lemma SameDisabled(h: Hw, isr: set<Irq>)
    ensures IrqDis(h.(isr := isr), {Bnb}) == IrqDis(h, {Bnb}).(isr := isr)
    ensures IrqDis(h, {Bnb}).isr == h.isr
  {
  }

  lemma SameClearing(s: State, p: Pass, q: Pass)
    requires p.s == State(q.s.d, q.s.h.(isr := s.h.isr)) && q.s.h.isr == s.h.isr + {RxFull}
    requires p.more == q.more && p.wake == q.wake && p.clr == q.clr
    requires RxFull !in s.h.isr && RxFull in p.clr
    ensures Finish(p, true) == Finish(q, false)
  {
    var a, b := WriteIisr(p.s.h, ClearWord(p, true)), WriteIisr(q.s.h, ClearWord(q, false));
    assert a.isr == b.isr;
    assert a == b;
  }

  // ----- Success reported in a pass that also goes on -----

  /** A message that is complete as soon as it is started. */
  predicate FitsAtOnce(o: Msg) {
    if o.rd then o.len == 0 else o.len <= FIRST_CHUNK
  }

  /** A pass that ends one message and finds the bus free reports success exactly
      when the next message is the last and of the same length. */
  lemma RaceOutcome(s: State, clkOk: bool)
    requires Inv(s) && !Astray(s.h) && s.d.tx.Some?
    requires ProcessPass(s, clkOk).more && Bnb in Pend(s.h)
    ensures s.d.tx.value + 1 < |s.d.sent|
    ensures var i, r := s.d.tx.value, Process(s, clkOk);
            && r.d.completed == 1 && r.d.warned
            && (r.d.status == Done <==> s.d.nmsgs == 2 && s.d.sent[i + 1].len == s.d.sent[i].len)
  {
    hide ProcessPass, StartNext, Inv, NoRxFullBit, Boundary;
    InvHasCursor(s);
    PassKeepsCursor(s, clkOk);
    RacePass(s, clkOk);
    var p := ProcessPass(s, clkOk);
    var s1 := State(p.s.d, WriteIisr(p.s.h, ClearWord(p, NoRxFullBit(s))));
    StartNextFrame(s1);
  }

  lemma InvHasCursor(s: State)
    requires Inv(s)
    ensures Cursor(s) && CursorOf(s.d) && TxQuiet(s)
    ensures s.d.tx.Some? ==> s.d.completed == 0
  {
    hide Data;
  }

  lemma RacePass(s: State, clkOk: bool)
    requires Inv(s) && !Astray(s.h) && s.d.tx.Some?
    requires ProcessPass(s, clkOk).more
    ensures s.d.tx.value + 1 < |s.d.sent|
    ensures var i, p := s.d.tx.value, ProcessPass(s, clkOk);
            && Boundary(p.s, i + 1) && !Astray(p.s.h) && p.s.d.sent == s.d.sent
            && (p.wake.Some? <==> Bnb in Pend(s.h))
            && (p.wake == Some(Done) <==> Bnb in Pend(s.h) && s.d.nmsgs == 2
                                          && s.d.sent[i + 1].len == s.d.sent[i].len)
  {
    hide Branches, Boundary, Running, Cursor, IsErrorPend, EarlyRxDone, ProcessPass, PendOk, Armed, Inv;
    var early := TakesEarlyPath(s);
    var pend := if early then Pend(s.h) + {RxFull} else Pend(s.h);
    var clr := if early then {TxError} else {};
    PassIsBranches(s, clkOk, pend, clr);
    InvHasCursor(s);
    PendFits(s);
    RaceBranches(s, s.d.tx.value, pend, clr);
  }

  /** A pass that goes on has not reset the controller. */
  lemma PassIsBranches(s: State, clkOk: bool, pend: set<Irq>, clr: set<Irq>)
    requires ProcessPass(s, clkOk).more
    requires pend == if TakesEarlyPath(s) then Pend(s.h) + {RxFull} else Pend(s.h)
    requires clr == if TakesEarlyPath(s) then {TxError} else {}
    ensures ProcessPass(s, clkOk) == Branches(s, pend, clr)
    ensures Bnb in pend <==> Bnb in Pend(s.h)
    ensures TakesEarlyPath(s) ==> EarlyRxDone(s, Pend(s.h))
  {
    hide Branches, EarlyRxDone;
  }

  lemma RaceBranches(s: State, i: nat, pend: set<Irq>, clr: set<Irq>)
    requires i < |s.d.sent| && Running(s, i) && Cursor(s) && !Astray(s.h) && PendOk(s, i, pend)
    requires Branches(s, pend, clr).more
    ensures i + 1 < |s.d.sent|
    ensures var p := Branches(s, pend, clr);
            && Boundary(p.s, i + 1) && !Astray(p.s.h) && p.s.d.sent == s.d.sent
            && (p.wake.Some? <==> Bnb in pend)
            && (p.wake == Some(Done) <==> Bnb in pend && s.d.nmsgs == 2
                                          && s.d.sent[i + 1].len == s.d.sent[i].len)
  {
    hide RxPart, TxPart, BnbPart, Running, Cursor, Boundary, AfterBranch, Clean, AllDone, Writing,
         ReadRx, FillState;
    RxPartData(s, i, pend, clr);
    var p1 := RxPart(s, pend, clr);
    TxBranchFits(s, i, p1, pend, clr);
    TxPartData(p1, i, pend);
    var p2 := TxPart(p1, pend);
    BnbKeepsMore(p2, pend);
    RaceAdvance(s, p1, p2, i, pend, clr);
    assert Boundary(p2.s, i + 1) by { MoreIsBoundary(p2, i); }
    BnbPartData(p2, i, pend);
    RaceVerdict(s, p2, i, pend);
  }

  lemma MoreIsBoundary(p: Pass, i: nat)
    requires p.more && AfterBranch(p, i)
    ensures Boundary(p.s, i + 1)
  {
    hide Boundary;
  }

  lemma BnbKeepsMore(p: Pass, pend: set<Irq>)
    ensures var q := BnbPart(p, pend);
            q.more == p.more && Astray(q.s.h) == Astray(p.s.h) && q.s.d.sent == p.s.d.sent
  {
  }

  /** The message just begun has nothing out yet, and keeps the old tx_pos. */
  lemma RaceVerdict(s: State, p: Pass, i: nat, pend: set<Irq>)
    requires Boundary(p.s, i + 1) && !p.jumped && p.wake.None?
    requires i < |s.d.sent| && p.s.d.sent == s.d.sent && p.s.d.nmsgs == s.d.nmsgs - 1
    requires p.s.d.txPos == s.d.sent[i].len
    ensures i + 1 < |s.d.sent|
    ensures var q := BnbPart(p, pend);
            && (q.wake.Some? <==> Bnb in pend)
            && (q.wake == Some(Done) <==> Bnb in pend && s.d.nmsgs == 2
                                          && s.d.sent[i + 1].len == s.d.sent[i].len)
  {
    hide History, Encode, EncodeUpTo;
    BoundaryTx(p.s, i + 1);
  }

  lemma RaceAdvance(s: State, p1: Pass, p2: Pass, i: nat, pend: set<Irq>, clr: set<Irq>)
    requires Running(s, i) && p1 == RxPart(s, pend, clr) && p2 == TxPart(p1, pend) && p2.more
    requires AfterBranch(p1, i)
    requires p1.more ==> pend * {TxEmpty, TxHalf} == {}
    requires s.d.sent[i].rd ==> pend * {TxEmpty, TxHalf} == {}
    ensures Astray(p2.s.h) == Astray(s.h) && !p2.jumped && p2.wake.None?
    ensures p2.s.d.txPos == s.d.sent[i].len && p2.s.d.nmsgs == s.d.nmsgs - 1
    ensures p2.s.d.sent == s.d.sent
  {
    hide ReadRx, Reading, FillState, TrimLen, EncodeUpTo, MsgDone;
  }

  /** Exactly when a success report is true. A pass that reports success is right
      if and only if the message was the last one when the pass began, or the
      message it has only just started is complete at once. */
  lemma SuccessIffComplete(s: State, clkOk: bool)
    requires Inv(s) && !Astray(s.h) && s.d.tx.Some?
    requires var r := Process(s, clkOk);
             r.d.completed == 1 && r.d.status == Done && !Astray(r.h)
    ensures s.d.nmsgs == 1 || s.d.tx.value + 1 < |s.d.sent|
    ensures AllDone(Process(s, clkOk)) <==>
            s.d.nmsgs == 1 || FitsAtOnce(s.d.sent[s.d.tx.value + 1])
    ensures AllDone(Process(s, clkOk)) ==> Process(s, clkOk).h.bus == Idle
  {
    hide Process, ProcessPass, Inv, AllDone, Boundary, NoRxFullBit, FitsAtOnce;
    InvHasCursor(s);
    ProcessKeepsInv(s, clkOk);
    PassKeepsCursor(s, clkOk);
    ProcessIs(s, clkOk);
    if ProcessPass(s, clkOk).more {
      RacePass(s, clkOk);
      SuccessOfRace(s, ProcessPass(s, clkOk), NoRxFullBit(s));
    } else {
      SuccessOfLast(s, ProcessPass(s, clkOk), NoRxFullBit(s), Process(s, clkOk));
    }
  }

  lemma ProcessIs(s: State, clkOk: bool)
    ensures Process(s, clkOk) == Finish(ProcessPass(s, clkOk), NoRxFullBit(s))
  {
    hide Finish, ProcessPass;
  }

  lemma SuccessOfLast(s: State, p: Pass, noRxFull: bool, r: State)
    requires Cursor(s) && s.d.tx.Some? && !p.more && PassCursor(s, p.(s := p.s.(h := s.h)))
    requires r == Finish(p, noRxFull) && Inv(r)
    requires r.d.completed == 1 && r.d.status == Done && !Astray(r.h)
    ensures s.d.nmsgs == 1 && AllDone(r) && r.h.bus == Idle
  {
    hide AllDone, Running, Clean;
  }

  lemma SuccessOfRace(s: State, p: Pass, noRxFull: bool)
    requires Cursor(s) && s.d.tx.Some? && p.more && PassCursor(s, p.(s := p.s.(h := s.h)))
    requires Boundary(p.s, s.d.tx.value + 1)
    requires var r := Finish(p, noRxFull);
             r.d.completed == 1 && r.d.status == Done && !Astray(r.h)
    ensures s.d.nmsgs == 2 && s.d.tx.value + 1 < |s.d.sent|
    ensures var r := Finish(p, noRxFull);
            && (AllDone(r) <==> FitsAtOnce(s.d.sent[s.d.tx.value + 1]))
            && (AllDone(r) ==> r.h.bus == Idle)
  {
    hide StartNext, Boundary, AllDone, FitsAtOnce;
    var i, s1 := s.d.tx.value + 1, State(p.s.d, WriteIisr(p.s.h, ClearWord(p, noRxFull)));
    StartNextFrame(s1);
    FinishFields(p, noRxFull, StartNext(s1));
    assert Boundary(s1, i) by { SameBoundary(p.s, s1, i); }
    BoundaryTx(s1, i);
    RaceStarts(s1, i);
    SameDone(StartNext(s1), Finish(p, noRxFull));
  }

  lemma SameBoundary(s: State, r: State, i: nat)
    requires Boundary(s, i) && r == State(s.d, s.h.(isr := r.h.isr))
    ensures Boundary(r, i)
  {
  }

  lemma FinishFields(p: Pass, noRxFull: bool, s2: State)
    requires p.more
    requires s2 == StartNext(State(p.s.d, WriteIisr(p.s.h, ClearWord(p, noRxFull))))
    ensures var r := Finish(p, noRxFull);
            && r.h == s2.h && r.d.sent == s2.d.sent && r.d.msgs == s2.d.msgs
            && r.d.dynamic == s2.d.dynamic
            && r.d.completed == s2.d.completed + (if p.wake.Some? then 1 else 0)
            && (p.wake.Some? ==> r.d.status == p.wake.value)
  {
    hide StartNext;
  }

  lemma RaceStarts(s: State, i: nat)
    requires Boundary(s, i) && i == |s.d.sent| - 1 && !Astray(StartNext(s).h)
    ensures AllDone(StartNext(s)) <==> FitsAtOnce(s.d.sent[i])
    ensures AllDone(StartNext(s)) ==> StartNext(s).h.bus == Idle
  {
    hide StartNext, Boundary, AllDone, Writing, Fresh, Armed;
    StartNextBegins(s, i);
    StartNextFrame(s);
    if s.d.sent[i].rd {
      StartedRead(StartNext(s), i);
    } else {
      StartedWrite(StartNext(s), i);
    }
  }

  lemma StartedRead(s: State, i: nat)
    requires i == |s.d.sent| - 1 && Fresh(s, i)
    ensures AllDone(s) <==> s.d.sent[i].len == 0
    ensures s.d.sent[i].len == 0 ==> s.h.bus == Idle
  {
    hide EncodeAt, NackShape;
    var o := s.d.sent[i];
    assert ValidAt(s.d.sent, s.d.dynamic, i);
    SplitEncoding(s.d.sent, s.d.dynamic, i + 1);
    assert EncodeFrom(s.d.sent, s.d.dynamic, i + 1) == [];
    FreshFields(s, i);
    if o.len == 0 {
      EmptyReadDone(o, s.d.msgs[i], s.h.logs[i]);
    }
  }

  lemma FreshFields(s: State, i: nat)
    requires Fresh(s, i)
    ensures s.d.msgs[i].len == s.d.sent[i].len && s.h.logs[i].bytes == []
    ensures Framed(s.d.sent[i], s.d.msgs[i]) && |s.h.logs[i].nacks| == 0
    ensures s.d.sent[i].len == 0 ==> s.h.bus == Idle && !s.d.sent[i].recvLen
  {
    hide History;
    assert s.h.logs[i].bytes == [];
  }

  lemma EmptyReadDone(o: Msg, m: Msg, log: ReadLog)
    requires Framed(o, m) && o.len == m.len == 0 && log.bytes == [] && |log.nacks| == 0 && !o.recvLen
    ensures ReadDone(o, m, log)
  {
  }

  lemma StartedWrite(s: State, i: nat)
    requires i == |s.d.sent| - 1 && Begun(s, i)
    ensures AllDone(s) <==> s.d.sent[i].len <= FIRST_CHUNK
    ensures s.h.bus == Idle
  {
    hide EncodeMsg, ValidMsg, ReadDone;
    SplitEncoding(s.d.sent, s.d.dynamic, i + 1);
    assert EncodeFrom(s.d.sent, s.d.dynamic, i + 1) == [];
    WriteLength(s, i);
    if s.d.sent[i].len <= FIRST_CHUNK {
      WholeWriteOut(s.d.sent, s.d.dynamic, s.h.dtr, i);
    }
  }

  lemma WriteLength(s: State, i: nat)
    requires Writing(s, i)
    ensures |s.h.dtr| == |EncodeUpTo(s.d.sent, s.d.dynamic, i)| + 1 + s.d.txPos
    ensures |EncodeUpTo(s.d.sent, s.d.dynamic, i + 1)|
         == |EncodeUpTo(s.d.sent, s.d.dynamic, i)| + 1 + s.d.sent[i].len
  {
  }

  // ----- Which lists are safe -----

  /** Nothing can be taken for the end of the last message before it is one: it is
      alone, or its length differs from the one before, or it is complete at once. */
  predicate SafeEnd(msgs: seq<Msg>) {
    var n := |msgs|;
    n <= 1 || msgs[n - 1].len != msgs[n - 2].len || FitsAtOnce(msgs[n - 1])
  }

  /** Success has been reported, by a transfer that has not gone astray. */
  predicate Reported(s: State) {
    s.d.completed == 1 && s.d.status == Done && !Astray(s.h)
  }

  /** And deservedly. */
  predicate Truthful(s: State) {
    Reported(s) ==> AllDone(s) && s.h.bus == Idle
  }

  /** No pass can take the end of a message for the end of the transfer: because of the
      list, or because it cannot find the bus free before the last message. */
  predicate NoRace(s: State) {
    SafeEnd(s.d.sent) || (s.d.tx.Some? && s.d.nmsgs > 1 ==> Bnb !in s.h.ier)
  }

  lemma ProcessIsTruthful(s: State, clkOk: bool)
    requires Inv(s) && Truthful(s) && NoRace(s)
    ensures Truthful(Process(s, clkOk))
  {
    hide Process, Inv, AllDone, FitsAtOnce;
    ProcessKeepsAstray(s, clkOk);
    InvHasCursor(s);
    if s.d.tx.None? {
      IdleHasNoRx(s);
      IdleProcessFrame(s, clkOk);
      if AllDone(s) {
        SameDone(s, Process(s, clkOk));
      }
    } else if Reported(Process(s, clkOk)) {
      SuccessIffComplete(s, clkOk);
      if s.d.nmsgs != 1 {
        RaceIsSafe(s, clkOk);
      }
    }
  }

  lemma RaceIsSafe(s: State, clkOk: bool)
    requires Inv(s) && !Astray(s.h) && s.d.tx.Some? && NoRace(s) && s.d.nmsgs != 1
    requires Reported(Process(s, clkOk)) && s.d.tx.value + 1 < |s.d.sent|
    ensures FitsAtOnce(s.d.sent[s.d.tx.value + 1])
  {
    hide ProcessPass, Inv, Boundary, FitsAtOnce, StartNext, NoRxFullBit;
    InvHasCursor(s);
    PassKeepsCursor(s, clkOk);
    var p := ProcessPass(s, clkOk);
    StartNextFrame(State(p.s.d, WriteIisr(p.s.h, ClearWord(p, NoRxFullBit(s)))));
    assert p.more;
    RacePass(s, clkOk);
    assert s.d.nmsgs == 2 && s.d.tx.value == |s.d.sent| - 2;
    assert Bnb in Pend(s.h);
  }

  lemma StepIsTruthful(s: State, e: Event, clkOk: bool)
    requires Inv(s) && Truthful(s) && NoRace(s)
    ensures Truthful(Step(s, e, clkOk))
  {
    hide Process, Inv, FitsAtOnce;
    if e.Interrupt? {
      ProcessIsTruthful(s, clkOk);
    } else {
      BusKeepsAstray(s, e, clkOk);
      if Reported(s) {
        BusKeepsDone(s, e, clkOk);
      }
    }
  }

  lemma BusKeepsDone(s: State, e: Event, clkOk: bool)
    requires !e.Interrupt? && AllDone(s) && s.h.bus == Idle
    ensures AllDone(Step(s, e, clkOk)) && Step(s, e, clkOk).h.bus == Idle
  {
    hide AllDone;
    SameDone(s, Step(s, e, clkOk));
  }

  lemma BusKeepsAstray(s: State, e: Event, clkOk: bool)
    requires !e.Interrupt?
    ensures var r := Step(s, e, clkOk); r.d == s.d && Astray(r.h) == Astray(s.h)
  {
  }

  lemma {:induction false} RunIsTruthful(s: State, events: seq<Event>, clkOk: bool)
    requires Inv(s) && Truthful(s) && SafeEnd(s.d.sent)
    ensures Truthful(Run(s, events, clkOk))
    decreases |events|
  {
    hide Step, Inv, Truthful, SafeEnd;
    if events != [] {
      InvHasCursor(s);
      StepKeepsCursor(s, events[0], clkOk);
      StepKeepsInv(s, events[0], clkOk);
      StepIsTruthful(s, events[0], clkOk);
      RunIsTruthful(Step(s, events[0], clkOk), events[1..], clkOk);
    }
  }

  /** For such a list success is sound on every run, whatever the handler warned of. */
  lemma SafeListIsSound(s: State, msgs: seq<Msg>, c: Config, stuck: (bool, bool),
                        events: seq<Event>)
    requires msgs != [] && StartXferRet(s, c, stuck).Ok? && !s.d.blockRead
    requires ValidTransfer(msgs, UsesDynamic(msgs, c.readBroken)) && SafeEnd(msgs)
    ensures var r := Run(StartXfer(s, msgs, c, stuck), events, c.clkOk);
            XferRet(r).Ok? && !Astray(r.h) ==> AllDone(r) && r.d.sent == msgs && XferRet(r) == Ok(|msgs|)
  {
    hide StartXfer, Run, Inv, AllDone, SafeEnd, ValidTransfer, Cursor;
    var s1 := StartXfer(s, msgs, c, stuck);
    StartXferEstablishes(s, msgs, c, stuck);
    StartXferSetsCursor(s, msgs, c, stuck);
    RunIsTruthful(s1, events, c.clkOk);
    RunKeepsCursor(s1, events, c.clkOk);
    CompletedOnce(Run(s1, events, c.clkOk));
  }

  lemma CompletedOnce(r: State)
    requires Cursor(r)
    ensures r.d.completed <= 1
  {
  }
}
