/** An adapter from probe on: any number of transfers, with anything the bus may do
    before and during each. Which controllers are refused at probe, and when a transfer
    leaves the driver busy for the next. */
module XiicLife {
  import opened XiicDevice
  import opened XiicSpec
  import opened XiicCursor
  import opened XiicTransfer
  import opened XiicReads
  import opened XiicProgress
  import opened XiicRuns
  import opened XiicRace
  import opened XiicClock

  /** One call of xiic_xfer: what happens between the last one and it, the messages, the
      wait for the bus, and what happens until its own wait is over. */
  datatype Call = Call(before: seq<Event>, msgs: seq<Msg>, stuck: (bool, bool), during: seq<Event>)

  /** What the call finds. */
  function Found(s: State, c: Config, call: Call): State {
    Run(s, call.before, c.clkOk)
  }

  function AfterCall(s: State, c: Config, call: Call): State
    requires call.msgs != []
  {
    var t := Found(s, c, call);
    var s1 := StartXfer(t, call.msgs, c, call.stuck);
    if StartXferRet(t, c, call.stuck).Ok? then XferEnd(Run(s1, call.during, c.clkOk)) else s1
  }

  function CallRet(s: State, c: Config, call: Call): Ret
    requires call.msgs != []
  {
    var t := Found(s, c, call);
    var ret := StartXferRet(t, c, call.stuck);
    if ret.Ok? then XferRet(Run(StartXfer(t, call.msgs, c, call.stuck), call.during, c.clkOk)) else ret
  }

  predicate HaveMessages(calls: seq<Call>) {
    forall i :: 0 <= i < |calls| ==> calls[i].msgs != []
  }

  function AfterCalls(s: State, c: Config, calls: seq<Call>): State
    requires HaveMessages(calls)
    decreases |calls|
  {
    if calls == [] then s else AfterCalls(AfterCall(s, c, calls[0]), c, calls[1..])
  }

  /** No transfer is under way, so that the next is not refused by the driver itself. */
  predicate IsFree(s: State) {
    s.d.tx.None? && s.d.rx.None?
  }

  // ----- Probe -----

  /** A controller is added exactly if its clock can be set and the FIFO is drained in
      time; it is then free, on an empty FIFO. */
  lemma ProbeIff(h: Hw, c: Config)
    ensures ProbeRet(h, c).Ok? <==> c.clkOk && DrainOk(Reset(h))
    ensures ProbeRet(h, c).Ok? ==> IsFree(Probed(h, c)) && Probed(h, c).h.rxFifo == []
  {
    hide ReinitHw;
    ReinitFrame(h, c.clkOk);
  }

  /** The clock is refused at probe, exactly if the bus frequency is not a supported one or
      the input clock is 12 to 14 times as fast; so no transfer is ever refused for it. */
  lemma ClockRefusedAtProbe(h: Hw, inClk: nat, f: nat, c: Config)
    requires c.clkOk == ClkOk(inClk, f) && (Speed(f) ==> inClk < f * 0x1_0000_0000)
    ensures ProbeRet(h, c) == EInval <==>
              inClk != 0 && f != 0 && (Speed(f) ==> 12 * f < inClk <= 14 * f)
    ensures ProbeRet(h, c).Ok? ==>
              forall s, call: Call :: call.msgs != [] ==> CallRet(s, c, call) != EInval
  {
    hide Run, StartXfer, ClkOk;
    ClkOkIff(inClk, f);
  }

  // ----- One transfer -----

  lemma {:induction false} FreeRuns(s: State, events: seq<Event>, clkOk: bool)
    requires IsFree(s)
    ensures Run(s, events, clkOk).d == s.d
    decreases |events|
  {
    hide Process;
    if events != [] {
      IdleProcessFrame(s, clkOk);
      FreeRuns(Step(s, events[0], clkOk), events[1..], clkOk);
    }
  }

  /** The RX FIFO is not drained in time: RESETR leaves its bytes, and time is up before the
      loop has popped them all. */
  predicate SlowDrain(h: Hw) {
    !h.chip.resetRx && h.rxFifo != [] && h.drains != [] && 0 < h.drains[0] <= |h.rxFifo|
  }

  /** What a start does to the pointers when it is not accepted. */
  lemma RefusedStart(s: State, msgs: seq<Msg>, c: Config, stuck: (bool, bool))
    requires msgs != [] && IsFree(s) && c.clkOk && !StartXferRet(s, c, stuck).Ok?
    ensures var r := StartXfer(s, msgs, c, stuck);
            && r.d.rx.None? && r.h.ier <= s.h.ier + {ArbLost}
            && (r.d.tx.Some? <==> (c.singlemaster || !stuck.0) && SlowDrain(s.h))
            && (r.d.tx.Some? ==> StartXferRet(s, c, stuck) == ETimedOut && r.h.ier == Reset(s.h).ier)
  {
    hide ReinitHw;
    var g := ClearHistory(FreedHw(s.h, c, stuck));
    ReinitFrame(s.h, true);
    ReinitFrame(g, true);
  }

  lemma AcceptedIsNotSlow(s: State, c: Config, stuck: (bool, bool))
    requires StartXferRet(s, c, stuck).Ok?
    ensures (!c.singlemaster && stuck.0) || !SlowDrain(s.h)
  {
  }

  /** After xiic_xfer has returned, by completion, error or time-out, the next transfer is
      refused as busy by this driver if and only if the start found bytes in the FIFO that
      it could not drain in time, other than in recovering the bus. */
  lemma NextStartRefused(s: State, c: Config, call: Call)
    requires call.msgs != [] && IsFree(s) && c.clkOk
    ensures !IsFree(AfterCall(s, c, call)) <==>
              (c.singlemaster || !call.stuck.0) && SlowDrain(Found(s, c, call).h)
    ensures !IsFree(AfterCall(s, c, call)) ==> CallRet(s, c, call) == ETimedOut
  {
    hide StartXfer, Run, SlowDrain;
    var t := Found(s, c, call);
    FreeRuns(s, call.before, c.clkOk);
    if StartXferRet(t, c, call.stuck).Ok? {
      OneWakeupPerStart(t, call.msgs, c, call.stuck, call.during);
      AcceptedIsNotSlow(t, c, call.stuck);
    } else {
      RefusedStart(t, call.msgs, c, call.stuck);
    }
  }

  // ----- Any number of transfers -----

  /** The controller has bytes that it may fail to drain only if RESETR leaves them and
      some drain is not in time. */
  predicate Drains(h: Hw) {
    h.chip.resetRx || h.drains == []
  }

  lemma StartDrainsOn(s: State, msgs: seq<Msg>, c: Config, stuck: (bool, bool))
    requires msgs != [] && Drains(s.h)
    ensures Drains(StartXfer(s, msgs, c, stuck).h)
  {
    hide StartNext, ReinitHw, UsesDynamic;
    var h1 := FreedHw(s.h, c, stuck);
    ReinitFrame(s.h, c.clkOk);
    ReinitFrame(ClearHistory(h1), c.clkOk);
    StartStray(State(Submit(s.d, msgs, c.readBroken), ReinitHw(ClearHistory(h1), c.clkOk)));
  }

  lemma CallDrainsOn(s: State, c: Config, call: Call)
    requires call.msgs != [] && Drains(s.h)
    ensures Drains(Found(s, c, call).h) && Drains(AfterCall(s, c, call).h)
  {
    hide StartXfer, Run;
    RunDrains(s, call.before, c.clkOk);
    StartDrainsOn(Found(s, c, call), call.msgs, c, call.stuck);
    RunDrains(StartXfer(Found(s, c, call), call.msgs, c, call.stuck), call.during, c.clkOk);
  }

  /** If RESETR empties the RX FIFO, or every drain is in time, an adapter never refuses a
      transfer as busy on its own account, whatever has happened since its probe. */
  lemma {:induction false} NeverBusy(s: State, c: Config, calls: seq<Call>)
    requires IsFree(s) && c.clkOk && Drains(s.h) && HaveMessages(calls)
    ensures IsFree(AfterCalls(s, c, calls))
    decreases |calls|
  {
    hide AfterCall, Found;
    if calls != [] {
      CallDrainsOn(s, c, calls[0]);
      NextStartRefused(s, c, calls[0]);
      NeverBusy(AfterCall(s, c, calls[0]), c, calls[1..]);
    }
  }

  lemma ProbedIsNeverBusy(h: Hw, c: Config, calls: seq<Call>)
    requires ProbeRet(h, c).Ok? && Drains(h) && HaveMessages(calls)
    ensures IsFree(AfterCalls(Probed(h, c), c, calls))
  {
    hide ReinitHw, AfterCalls;
    ReinitFrame(h, c.clkOk);
    NeverBusy(Probed(h, c), c, calls);
  }

  // ----- A driver that stays busy -----

  /** With no interrupt enabled nothing changes the driver. */
  lemma {:induction false} DeafRuns(s: State, events: seq<Event>, clkOk: bool)
    requires s.h.ier == {}
    ensures var r := Run(s, events, clkOk); r.d == s.d && r.h.ier == {}
    decreases |events|
  {
    hide Process;
    if events != [] {
      NothingPending(s, clkOk);
      DeafRuns(Step(s, events[0], clkOk), events[1..], clkOk);
    }
  }

  lemma {:induction false} DeafCalls(s: State, c: Config, calls: seq<Call>)
    requires s.h.ier == {} && s.d.tx.Some? && HaveMessages(calls)
    ensures var r := AfterCalls(s, c, calls); r.d == s.d && r.h.ier == {}
    decreases |calls|
  {
    hide Run;
    if calls != [] {
      DeafRuns(s, calls[0].before, c.clkOk);
      DeafCalls(AfterCall(s, c, calls[0]), c, calls[1..]);
    }
  }

  /** If RESETR clears the interrupt registers, a driver whose start has failed to drain the
      FIFO refuses every later transfer as busy, whatever happens. */
  lemma StuckForever(s: State, c: Config, call: Call, calls: seq<Call>, next: Call)
    requires call.msgs != [] && next.msgs != [] && HaveMessages(calls)
    requires IsFree(s) && c.clkOk && s.h.chip.resetIrq
    requires (c.singlemaster || !call.stuck.0) && SlowDrain(Found(s, c, call).h)
    ensures var s1 := AfterCalls(AfterCall(s, c, call), c, calls);
            && CallRet(s, c, call) == ETimedOut && CallRet(s1, c, next) == EBusy
            && AfterCall(s1, c, next).d == s1.d == AfterCall(s, c, call).d
  {
    hide Run, SlowDrain;
    var t := Found(s, c, call);
    FreeRuns(s, call.before, c.clkOk);
    RunDrains(s, call.before, c.clkOk);
    NextStartRefused(s, c, call);
    RefusedStart(t, call.msgs, c, call.stuck);
    DeafCalls(AfterCall(s, c, call), c, calls);
    var s1 := AfterCalls(AfterCall(s, c, call), c, calls);
    DeafRuns(s1, next.before, c.clkOk);
  }

  /** Otherwise an interrupt that is still enabled can free such a driver: exactly a bus
      error, or a bus seen free without RX_FULL. */
  lemma FreedIff(s: State, clkOk: bool)
    requires s.d.tx.Some? && s.d.rx.None?
    ensures Process(s, clkOk).d.tx.None? <==>
              IsErrorPend(Pend(s.h)) || (Bnb in Pend(s.h) && RxFull !in Pend(s.h))
  {
    hide StartNext, Branches, ReinitHw, ClearWord, NoRxFullBit;
    var p := ProcessPass(s, clkOk);
    FreedBranches(s, Pend(s.h));
    StartNextFrame(State(p.s.d, WriteIisr(p.s.h, ClearWord(p, NoRxFullBit(s)))));
  }

  lemma FreedBranches(s: State, pend: set<Irq>)
    requires s.d.tx.Some? && s.d.rx.None?
    ensures var p := Branches(s, pend, {});
            p.s.d.tx.Some? && (p.wake.Some? <==> Bnb in pend && RxFull !in pend)
  {
    hide FillState, DrainRx, IrqDis;
    FillFrame(s);
  }

  /** A start that finds the FIFO empty has nothing to drain. */
  lemma EmptyFifoStart(s: State, m: Msg, c: Config)
    requires CanRead(s, m, c) && s.h.rxFifo == []
    ensures var r := StartXfer(s, [m], c, (false, false)).h;
            r.chip == s.h.chip && r.drains == s.h.drains
  {
    hide StartNext, ReinitHw, UsesDynamic;
    ReinitFrame(ClearHistory(s.h), c.clkOk);
    StartStray(Submitted(s, m, c));
  }

  lemma OneByte(r: State, slave: Slave, b: Byte)
    requires CalmRead(r, 0, slave) && RxSpace(r.d) > 0 && r.h.rxFifo == []
    ensures var h := Clock(r.h, b);
            h.rxFifo == [b] && h.chip == r.h.chip && h.drains == r.h.drains
  {
    hide History, Cursor;
    if !CanClock(r.h) {
      StoppedAtWatermark(r, 0);
    }
  }

  /** A drain that is too slow, from probe: a read to which the slave sends one byte and
      then no more runs into the completion time-out. If the next start is held up for a
      second as it pops that byte, it returns ETIMEDOUT, and every later call EBUSY. */
  lemma SlowDrainSticks(h: Hw, c: Config, m: Msg, b: Byte, msgs: seq<Msg>, calls: seq<Call>,
                        next: Call)
    requires ProbeRet(h, c).Ok? && h.isr == {} && h.rxFifo == [] && h.drains == [1]
    requires h.chip.resetIrq && !h.chip.resetRx
    requires m.rd && m.len > 0 && ValidTransfer([m], UsesDynamic([m], c.readBroken))
    requires msgs != [] && next.msgs != [] && HaveMessages(calls)
    ensures var first := Call([], [m], (false, false), [ByteIn(b)]);
            var second := Call([], msgs, (false, false), []);
            var s0 := Probed(h, c);
            var s1 := AfterCall(s0, c, first);
            var s2 := AfterCalls(AfterCall(s1, c, second), c, calls);
            && CallRet(s0, c, first) == ETimedOut && CallRet(s1, c, second) == ETimedOut
            && CallRet(s2, c, next) == EBusy
  {
    hide StartXfer, ReinitHw, UsesDynamic, CalmRead, AfterCalls;
    var s0 := Probed(h, c);
    ReinitFrame(h, c.clkOk);
    assert CanRead(s0, m, c);
    var r := StartXfer(s0, [m], c, (false, false));
    var slave := Slave(j => b, Silent);
    OneReadStarts(s0, m, slave, c);
    OneByte(r, slave, b);
    EmptyFifoStart(s0, m, c);
    RunOne(r, ByteIn(b));
    StartXferSetsCursor(s0, [m], c, (false, false));
    StuckForever(XferEnd(State(r.d, Clock(r.h, b))), c, Call([], msgs, (false, false), []), calls, next);
  }
}
