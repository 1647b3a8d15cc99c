/** A byte that is left behind. A standard-mode read that asks for no byte gets one all
    the same, and leaves it in the RX FIFO; the next read takes it for its first. */
module XiicStale {
  import opened Wrappers
  import opened XiicDevice
  import opened XiicSpec
  import opened XiicReading
  import opened XiicCursor
  import opened XiicTransfer
  import opened XiicReads
  import opened XiicProgress
  import opened XiicRuns
  import opened XiicEmpty

  // ----- The start of a standard-mode read -----

  lemma StandardStart(s: State)
    requires s.d.tx.Some? && TxMsg(s.d).rd && !s.d.dynamic && !s.d.prevTx && s.h.txLevel == 0
    ensures var r, m := StartNext(s), TxMsg(s.d);
            && r.d == s.d.(rx := s.d.tx, rxPos := 0, txPos := m.len, status := Start, prevTx := false,
                           actualLen := 0)
            && r.h == s.h.(isr := r.h.isr, ier := r.h.ier, rfd := r.h.rfd, dtr := r.h.dtr, bus := Std,
                           cr := r.h.cr, txLevel := 1, stray := r.h.stray,
                           logs := s.h.logs + [ReadLog([], [])])
            && r.h.rfd == (if m.len > 16 then 15 else if m.len <= 1 then 0 else m.len - 2)
            && (NoAck in r.h.cr <==> NoAck in s.h.cr || (m.len == 1 && !m.recvLen))
            && r.h.isr <= s.h.isr && RxFull in r.h.ier && (s.d.nmsgs == 1 ==> Bnb in r.h.ier)
  {
    hide RecvStandardHw, IrqClrEn, RecvDynamicHw;
    var h := IrqDis(OpenLog(s.h), {TxHalf, TxEmpty});
    RecvStandardFields(h, TxMsg(s.d));
    RecvHwFrame(h, TxMsg(s.d), false);
    ClrEnFields(RecvStandardHw(h, TxMsg(s.d)), {Bnb});
  }

  // ----- The empty read -----

  /** Message a, which asks for no byte, is being read. */
  predicate EmptyCurrent(s: State, a: Msg, b: Msg, fifo: seq<Byte>) {
    && s.d.sent == s.d.msgs == [a, b] && !s.d.dynamic && s.d.tx == s.d.rx == Some(0) && s.d.nmsgs == 2
    && s.d.completed == 0 && !s.d.warned && !s.h.timedOut && !s.d.prevTx && !s.d.blockRead
    && s.d.actualLen == 0 && s.d.rxPos == 0
    && s.h.rxFifo == fifo && s.h.rfd == 0 && s.h.bus == Std && |s.h.logs| == 1
    && RxFull in s.h.ier && NoAck !in s.h.cr && (fifo != [] ==> s.h.txLevel == 0)
  }

  lemma EmptyReadBegins(s: State, a: Msg, b: Msg, c: Config)
    requires StartXferRet(s, c, (false, false)).Ok? && s.h.isr == {} && !s.d.blockRead
    requires !UsesDynamic([a, b], c.readBroken) && a.rd && !a.recvLen && a.len == 0
    ensures var r := StartXfer(s, [a, b], c, (false, false));
            EmptyCurrent(r, a, b, []) && r.h.isr == {}
  {
    hide StartNext, ReinitHw, UsesDynamic;
    StartIs(s, [a, b], c);
    ReinitFrame(ClearHistory(s.h), c.clkOk);
    StandardStart(State(Submit(s.d, [a, b], c.readBroken), ReinitHw(ClearHistory(s.h), c.clkOk)));
  }

  lemma ByteAndRxFull(s: State, a: Msg, b: Msg, v: Byte)
    requires EmptyCurrent(s, a, b, []) && s.h.isr == {}
    ensures var t := State(s.d, Latch(Clock(s.h, v), {RxFull}));
            EmptyCurrent(t, a, b, [v]) && t.h.isr == {RxFull}
  {
  }

  /** The next read has begun, with the byte still in the FIFO. */
  predicate NextCurrent(s: State, a: Msg, b: Msg, v: Byte) {
    && s.d.sent == [a, b] && !s.d.dynamic && s.d.tx == s.d.rx == Some(1) && s.d.nmsgs == 1
    && |s.d.msgs| == 2 && s.d.msgs[1] == b
    && s.d.completed == 0 && !s.d.warned && !s.h.timedOut && !s.d.blockRead
    && s.d.actualLen == 0 && s.d.rxPos == 0 && s.d.txPos == b.len
    && s.h.rxFifo == [v] && s.h.bus == Std && |s.h.logs| == 2 && s.h.logs[1] == ReadLog([], [])
    && s.h.rfd == (if b.len > 16 then 15 else if b.len <= 1 then 0 else b.len - 2)
    && (NoAck in s.h.cr <==> b.len == 1)
    && s.h.isr == {} && RxFull in s.h.ier && Bnb in s.h.ier
  }

  /** The empty read is over at once; its byte stays. */
  lemma EmptyReadEnds(s: State, a: Msg, b: Msg, v: Byte)
    requires EmptyCurrent(s, a, b, [v]) && s.h.isr == {RxFull}
    requires !a.recvLen && a.len == 0 && b.rd && !b.recvLen
    ensures var r := Process(s, true);
            NextCurrent(r, a, b, v) && r.d.overrun == s.d.overrun && r.h.underflow == s.h.underflow
  {
    hide Process, StartNext, RxPart;
    assert Pend(s.h) == {RxFull};
    OnlyReadBranch(s, true);
    var p := RxPart(s, {RxFull}, {});
    EmptyReadPart(s, a, b, v);
    var s1 := State(p.s.d, WriteIisr(p.s.h, p.clr));
    assert s1.h.isr == {};
    StandardStart(s1);
  }

  lemma EmptyReadPart(s: State, a: Msg, b: Msg, v: Byte)
    requires EmptyCurrent(s, a, b, [v]) && s.h.isr == {RxFull} && !a.recvLen && a.len == 0
    ensures var p := RxPart(s, {RxFull}, {});
            && p.more && p.wake.None? && p.clr == {RxFull}
            && p.s.d == s.d.(tx := Some(1), rx := None, nmsgs := 1)
            && p.s.h == s.h.(cr := s.h.cr - {NoAck})
  {
    assert RxMsg(s.d) == a;
    var x := ReadRx(RxView(s), false, false);
    assert x == RxView(s).(cr := s.h.cr - {NoAck});
    assert s.d.msgs[0 := a] == s.d.msgs;
  }

  // ----- The next read, if it asks for one byte -----

  /** It is over: its buffer holds the stale byte and then its own bytes, but for the last
      it asked for, which was never clocked. */
  predicate TookStale(s: State, a: Msg, b: Msg, v: Byte, slave: Slave) {
    && s.d.sent == [a, b] && s.d.tx == Some(1) && s.d.rx.None? && s.d.nmsgs == 1
    && s.d.completed == 0 && !s.d.warned && !s.h.timedOut && !s.d.blockRead
    && |s.d.msgs| == 2 && s.d.msgs[1].len == b.len == s.d.txPos && b.len <= |s.d.msgs[1].buf|
    && s.h.isr == {} && Bnb in s.h.ier
    && |s.h.logs| == 2 && SentBy(s.h.logs[1].bytes, slave) && |s.h.logs[1].bytes| == b.len - 1
    && s.d.msgs[1].buf[..b.len] == [v] + s.h.logs[1].bytes
  }

  lemma OneByteRead(s: State, a: Msg, b: Msg, v: Byte, slave: Slave)
    requires NextCurrent(s, a, b, v) && !b.recvLen && b.len == 1 <= |b.buf|
    ensures var t := State(s.d, Latch(s.h, {RxFull}));
            t.h.isr == {RxFull} && TookStale(Process(t, true), a, b, v, slave)
  {
    hide Process, RxPart;
    var t := State(s.d, Latch(s.h, {RxFull}));
    assert Pend(t.h) == {RxFull};
    OnlyReadBranch(t, true);
    OneBytePart(t, a, b, v);
    assert ClearWord(RxPart(t, {RxFull}, {}), false) == {RxFull};
  }

  lemma OneBytePart(s: State, a: Msg, b: Msg, v: Byte)
    requires NextCurrent(State(s.d, s.h.(isr := {})), a, b, v) && s.h.isr == {RxFull}
    requires !b.recvLen && b.len == 1 <= |b.buf|
    ensures var p := RxPart(s, {RxFull}, {});
            && !p.more && p.wake.None? && p.clr == {RxFull} && |p.s.d.msgs| == 2
            && p.s.d == s.d.(rx := None, rxPos := 1, msgs := p.s.d.msgs)
            && p.s.d.msgs[1].len == 1 <= |p.s.d.msgs[1].buf| && p.s.d.msgs[1].buf[..1] == [v]
            && p.s.h == s.h.(rxFifo := [], cr := p.s.h.cr)
  {
    var z := RxView(s).(cr := (s.h.cr - {Msms}) - {NoAck});
    ReadBytesDrains(z, 1);
    var x := ReadRx(RxView(s), false, true);
    assert x == Drained(z, 1);
    assert x.m.buf == [v] + b.buf[1..];
    assert x.fifo == [];
  }

  // ----- The next read, if it asks for more -----

  /** The bytes as the driver sees them. */
  function WithStale(v: Byte, log: ReadLog): ReadLog {
    ReadLog([v] + log.bytes, [false] + log.nacks)
  }

  /** The read is in order, only not with the bytes that were clocked for it. */
  predicate StaleRead(s: State, a: Msg, b: Msg, v: Byte, slave: Slave) {
    && s.d.sent == [a, b] && !s.d.dynamic && s.d.tx == s.d.rx == Some(1) && s.d.nmsgs == 1
    && |s.d.msgs| == 2 && s.d.completed == 0 && !s.d.warned && !s.h.timedOut
    && s.d.txPos == b.len >= 2 && !b.recvLen && !RxMsg(s.d).recvLen
    && RxFull in s.h.ier && Bnb in s.h.ier
    && |s.h.logs| == 2 && SentBy(s.h.logs[1].bytes, slave)
    && Reading(b, RxView(s), WithStale(v, s.h.logs[1]), s.h.bus, false)
  }

  lemma NextIsStale(s: State, a: Msg, b: Msg, v: Byte, slave: Slave)
    requires NextCurrent(s, a, b, v) && !b.recvLen && 2 <= b.len <= |b.buf|
    requires !s.h.underflow && !s.d.overrun
    ensures StaleRead(s, a, b, v, slave)
  {
    assert WithStale(v, ReadLog([], [])) == ReadLog([v], [false]);
  }

  lemma StaleClocks(s: State, a: Msg, b: Msg, v: Byte, slave: Slave)
    requires StaleRead(s, a, b, v, slave) && CanClock(s.h)
    ensures var r := State(s.d, Clock(s.h, slave.byte(|s.h.logs[1].bytes|)));
            StaleRead(r, a, b, v, slave) && r.h.isr == s.h.isr && r.h.rfd == s.h.rfd
            && |r.h.rxFifo| == |s.h.rxFifo| + 1
  {
    hide Reading;
    var y, log, nack := slave.byte(|s.h.logs[1].bytes|), s.h.logs[1], NackNext(s.h);
    ClockKeepsReading(b, RxView(s), WithStale(v, log), s.h.bus, false, y, nack);
    assert WithStale(v, ReadLog(log.bytes + [y], log.nacks + [nack]))
        == ReadLog(WithStale(v, log).bytes + [y], WithStale(v, log).nacks + [nack]);
    var r := State(s.d, Clock(s.h, y));
    assert RxView(r) == RxView(s).(fifo := s.h.rxFifo + [y]);
  }

  lemma StaleStops(s: State, a: Msg, b: Msg, v: Byte, slave: Slave)
    requires StaleRead(s, a, b, v, slave) && !CanClock(s.h) && RxSpace(s.d) > 0
    ensures |s.h.rxFifo| == Watermark(s.h)
  {
  }

  lemma {:induction false} StaleFeeds(s: State, a: Msg, b: Msg, v: Byte, slave: Slave)
    requires StaleRead(s, a, b, v, slave) && RxSpace(s.d) > 0
    ensures var r := State(s.d, Feed(s.h, slave));
            StaleRead(r, a, b, v, slave) && r.h.isr == s.h.isr && |r.h.rxFifo| == Watermark(r.h)
    decreases Watermark(s.h) - |s.h.rxFifo|
  {
    hide Clock, StaleRead;
    if CanClock(s.h) {
      StaleLog(s, a, b, v, slave);
      StaleClocks(s, a, b, v, slave);
      StaleFeeds(State(s.d, Clock(s.h, slave.byte(|s.h.logs[1].bytes|))), a, b, v, slave);
    } else {
      StaleStops(s, a, b, v, slave);
    }
  }

  lemma StaleLog(s: State, a: Msg, b: Msg, v: Byte, slave: Slave)
    requires StaleRead(s, a, b, v, slave)
    ensures |s.h.logs| == 2 && s.d.rx == Some(1) && |s.d.msgs| == 2
  {
    hide Reading;
  }

  /** One watermark interrupt: the read goes on, or is over. */
  lemma StaleRound(t: State, a: Msg, b: Msg, v: Byte, slave: Slave)
    requires StaleRead(t, a, b, v, slave) && t.h.isr == {RxFull} && |t.h.rxFifo| == Watermark(t.h)
    requires RxSpace(t.d) > 0
    ensures var r := Process(t, true);
            || TookStale(r, a, b, v, slave)
            || (&& StaleRead(r, a, b, v, slave) && r.h.isr == {} && 0 < RxSpace(r.d) < RxSpace(t.d))
  {
    hide Process, ReadRx, Reading, RxPart;
    var x := ReadRx(RxView(t), false, true);
    assert Ripe(RxView(t));
    ReadKeepsOrder(b, RxView(t), WithStale(v, t.h.logs[1]), t.h.bus, false, true);
    assert Pend(t.h) == {RxFull};
    OnlyReadBranch(t, true);
    if Left(x) != 0 {
      OpenPass(t, x);
      NoCountAwaited(b, x, WithStale(v, t.h.logs[1]), t.h.bus);
      StaleGoesOn(t, x, a, b, v, slave);
    } else {
      StaleEnds(t, x, a, b, v, slave);
    }
  }

  lemma NoCountAwaited(b: Msg, x: RxIo, log: ReadLog, bus: BusRead)
    requires Reading(b, x, log, bus, false) && !b.recvLen
    ensures !x.m.recvLen
  {
  }

  lemma StaleGoesOn(t: State, x: RxIo, a: Msg, b: Msg, v: Byte, slave: Slave)
    requires StaleRead(t, a, b, v, slave) && t.h.isr == {RxFull}
    requires x == ReadRx(RxView(t), false, true) && !x.m.recvLen
    requires Reading(b, x, WithStale(v, t.h.logs[1]), t.h.bus, false)
    ensures var w := WithRx(t, x);
            var r := State(w.d, WriteIisr(w.h, {RxFull}));
            StaleRead(r, a, b, v, slave) && r.h.isr == {} && RxSpace(r.d) == Left(x)
  {
    hide ReadRx, Reading;
    var w := WithRx(t, x);
    WithRxFields(t, x);
    var r := State(w.d, WriteIisr(w.h, {RxFull}));
    assert RxView(r) == x;
  }

  lemma StaleEnds(t: State, x: RxIo, a: Msg, b: Msg, v: Byte, slave: Slave)
    requires StaleRead(t, a, b, v, slave) && t.h.isr == {RxFull}
    requires x == ReadRx(RxView(t), false, true) && Left(x) == 0
    requires ReadLeft(b, TrimLen(x), WithStale(v, t.h.logs[1]), t.h.bus)
    ensures TookStale(Finish(RxPart(t, {RxFull}, {}), false), a, b, v, slave)
  {
    hide ReadRx, Reading;
    var p, m := RxPart(t, {RxFull}, {}), TrimLen(x).m;
    assert t.h.isr * {TxError} == {};
    assert p.clr == {RxFull};
    StaleBuffer(b, m, v, t.h.logs[1]);
    assert Put(t.d.msgs, 1, m)[1] == m;
  }

  lemma StaleBuffer(b: Msg, m: Msg, v: Byte, log: ReadLog)
    requires !b.recvLen && ReadDone(b, m, WithStale(v, log))
    ensures m.len == b.len <= |m.buf| && |log.bytes| == b.len - 1
    ensures m.buf[..b.len] == [v] + log.bytes
  {
    assert WithStale(v, log).bytes[..b.len] == [v] + log.bytes;
  }

  lemma {:induction false} StaleRuns(s: State, a: Msg, b: Msg, v: Byte, slave: Slave)
      returns (events: seq<Event>)
    requires StaleRead(s, a, b, v, slave) && s.h.isr == {} && RxSpace(s.d) > 0
    ensures TookStale(Run(s, events, true), a, b, v, slave)
    decreases RxSpace(s.d)
  {
    hide Process, Feed, StaleRead, TookStale, Latch;
    StaleFeeds(s, a, b, v, slave);
    var feed := FeedIsRun(s, slave);
    var t := State(s.d, Latch(Feed(s.h, slave), {RxFull}));
    StaleLatches(State(s.d, Feed(s.h, slave)), a, b, v, slave);
    StaleRound(t, a, b, v, slave);
    RunInterrupt(s, feed, {RxFull});
    events := feed + [IrqBits({RxFull})] + [Interrupt];
    if !TookStale(Process(t, true), a, b, v, slave) {
      var rest := StaleRuns(Process(t, true), a, b, v, slave);
      RunAppends(s, events, rest);
      events := events + rest;
    }
  }

  lemma StaleLatches(s: State, a: Msg, b: Msg, v: Byte, slave: Slave)
    requires StaleRead(s, a, b, v, slave) && s.h.isr == {} && |s.h.rxFifo| == Watermark(s.h)
    ensures var t := State(s.d, Latch(s.h, {RxFull}));
            StaleRead(t, a, b, v, slave) && t.h.isr == {RxFull} && |t.h.rxFifo| == Watermark(t.h)
  {
    hide Reading;
    var t := State(s.d, Latch(s.h, {RxFull}));
    assert RxView(t) == RxView(s);
  }

  // ----- The report -----

  lemma StaleReported(s: State, a: Msg, b: Msg, v: Byte, slave: Slave)
    requires TookStale(s, a, b, v, slave) && b.rd && !b.recvLen
    ensures var r := Process(State(s.d, Latch(s.h, {Bnb})), true);
            && XferRet(r) == Ok(2) && !r.h.timedOut && !r.d.warned && !AllDone(r)
            && r.d.msgs == s.d.msgs && r.h.logs == s.h.logs
  {
    hide Process;
    var t := State(s.d, Latch(s.h, {Bnb}));
    assert Pend(t.h) == {Bnb};
    StopFields(t);
    assert !MsgDone(b, s.d.msgs[1], s.h.logs[1]);
  }

  /** An empty read followed by a read of any length, in standard mode for whatever reason:
      the byte clocked for the first ends up as the first byte of the second, whose own
      bytes are all one place late, so that the last is never clocked; and success is
      reported for both, with no warning and no time-out. */
  lemma EmptyReadPoisonsNext(s: State, a: Msg, b: Msg, v: Byte, slave: Slave, c: Config)
      returns (events: seq<Event>)
    requires StartXferRet(s, c, (false, false)).Ok? && s.h.isr == {} && !s.d.blockRead
    requires !UsesDynamic([a, b], c.readBroken)
    requires a.rd && !a.recvLen && a.len == 0
    requires b.rd && !b.recvLen && 1 <= b.len <= |b.buf|
    ensures var r := Run(StartXfer(s, [a, b], c, (false, false)), events, true);
            && XferRet(r) == Ok(2) && !r.h.timedOut && !r.d.warned && !AllDone(r)
            && |r.d.msgs| == |r.h.logs| == 2 && b.len <= |r.d.msgs[1].buf|
            && |r.h.logs[1].bytes| == b.len - 1 && SentBy(r.h.logs[1].bytes, slave)
            && r.d.msgs[1].buf[..b.len] == [v] + r.h.logs[1].bytes
  {
    hide Process, StartXfer, EmptyCurrent, NextCurrent, StaleRead, AllDone, Latch, UsesDynamic, Clock;
    var s1 := StartXfer(s, [a, b], c, (false, false));
    EmptyReadBegins(s, a, b, c);
    var t := State(s1.d, Latch(Clock(s1.h, v), {RxFull}));
    ByteAndRxFull(s1, a, b, v);
    EmptyReadEnds(t, a, b, v);
    RunOne(s1, ByteIn(v));
    RunInterrupt(s1, [ByteIn(v)], {RxFull});
    var next, first := Process(t, true), [ByteIn(v)] + [IrqBits({RxFull})] + [Interrupt];
    var rest := [] + [IrqBits({RxFull})] + [Interrupt];
    if b.len == 1 {
      OneByteRead(next, a, b, v, slave);
      RunInterrupt(next, [], {RxFull});
    } else {
      StartedClean(s, a, b, c);
      ClockClean(s1.h, v);
      NextIsStale(next, a, b, v, slave);
      NextSpace(next, a, b, v);
      rest := StaleRuns(next, a, b, v, slave);
    }
    RunAppends(s1, first, rest);
    StaleReported(Run(next, rest, true), a, b, v, slave);
    RunInterrupt(s1, first + rest, {Bnb});
    events := first + rest + [IrqBits({Bnb})] + [Interrupt];
  }

  lemma NextSpace(s: State, a: Msg, b: Msg, v: Byte)
    requires NextCurrent(s, a, b, v)
    ensures RxSpace(s.d) == b.len && s.h.isr == {}
  {
  }

  lemma StartedClean(s: State, a: Msg, b: Msg, c: Config)
    requires StartXferRet(s, c, (false, false)).Ok? && !UsesDynamic([a, b], c.readBroken) && a.rd
    ensures var r := StartXfer(s, [a, b], c, (false, false)); !r.h.underflow && !r.d.overrun
  {
    hide StartNext, ReinitHw, UsesDynamic;
    StartIs(s, [a, b], c);
    ReinitFrame(ClearHistory(s.h), c.clkOk);
    StandardStart(State(Submit(s.d, [a, b], c.readBroken), ReinitHw(ClearHistory(s.h), c.clkOk)));
  }

  lemma ClockClean(h: Hw, v: Byte)
    ensures Latch(Clock(h, v), {RxFull}).underflow == h.underflow
  {
  }
}
