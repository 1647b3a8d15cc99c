/** Reads as they happen when nothing goes wrong: the slave sends bytes until the
    bus is throttled or the read is over, RX_FULL is raised, or TX_ERROR for the NACK of
    the last byte, the handler runs, and so on. Every such read ends, with the slave's
    bytes in the buffer. */
module XiicReads {
  import opened Wrappers
  import opened XiicDevice
  import opened XiicSpec
  import opened XiicReading
  import opened XiicCursor
  import opened XiicTransfer
  import opened XiicHandler

  /** When the NACK of a read's last byte raises TX_ERROR: never, together with RX_FULL, or
      before it. */
  datatype NackIrq = Silent | Joint | Early

  /** What the slave sends, byte number j of the message, and how its read ends. */
  datatype Slave = Slave(byte: nat -> Byte, nack: NackIrq)

  predicate SentBy(bytes: seq<Byte>, slave: Slave) {
    forall j :: 0 <= j < |bytes| ==> bytes[j] == slave.byte(j)
  }

  /** The bus runs until it is throttled or the read is over. */
  function Feed(h: Hw, slave: Slave): Hw
    decreases Watermark(h) - |h.rxFifo|
  {
    if CanClock(h) then Feed(Clock(h, slave.byte(|h.logs[|h.logs| - 1].bytes|)), slave) else h
  }

  /** The interrupt bits once the bus has stopped: RX_FULL, and TX_ERROR if the byte that
      was NACKed is in the FIFO. */
  function RoundBits(h: Hw, nack: NackIrq): set<Irq> {
    if h.bus != Idle || h.rxFifo == [] || nack.Silent? then {RxFull}
    else if nack.Joint? then {RxFull, TxError}
    else {TxError}
  }

  /** One interrupt of a read. */
  function Round(s: State, slave: Slave, clkOk: bool): State {
    var h := Feed(s.h, slave);
    Process(State(s.d, Latch(h, RoundBits(h, slave.nack))), clkOk)
  }

  /** The same if the NACK raises nothing. */
  function FullRound(s: State, slave: Slave, clkOk: bool): State {
    Process(State(s.d, Latch(Feed(s.h, slave), {RxFull})), clkOk)
  }

  function Rounds(s: State, slave: Slave, clkOk: bool, n: nat): State
    decreases n
  {
    if n == 0 then s else Rounds(Round(s, slave, clkOk), slave, clkOk, n - 1)
  }

  /** The bus becomes free. */
  function FreeBus(s: State, clkOk: bool): State {
    Process(State(s.d, Latch(s.h, {Bnb})), clkOk)
  }

  /** A read in progress, with no other interrupt about to interfere. */
  predicate CalmRead(s: State, i: nat, slave: Slave) {
    && i < |s.d.sent| && i < |s.h.logs|
    && Receiving(s, i) && Armed(s) && Cursor(s)
    && Pend(s.h) <= {RxFull}
    && SentBy(s.h.logs[i].bytes, slave)
  }

  /** The handler has let go of message i, whose bytes are the slave's. */
  predicate ReadFinished(s: State, i: nat, o: Msg, slave: Slave) {
    && i < |s.d.msgs| && i < |s.h.logs|
    && SentBy(s.h.logs[i].bytes, slave)
    && (ReadDone(o, s.d.msgs[i], s.h.logs[i]) || ReadRefused(o, s.d.msgs[i], s.h.logs[i]))
    && s.d.rx != Some(i)
  }

  // ----- The bus -----

  /** One byte. */
  lemma CalmClocks(s: State, i: nat, slave: Slave)
    requires CalmRead(s, i, slave) && CanClock(s.h)
    ensures s.h.logs != []
    ensures var r := State(s.d, Clock(s.h, slave.byte(|s.h.logs[|s.h.logs| - 1].bytes|)));
            && CalmRead(r, i, slave) && r.h.rfd == s.h.rfd && |r.h.rxFifo| == |s.h.rxFifo| + 1
            && r.h.isr == s.h.isr && r.h.ier == s.h.ier
  {
    hide Reading, History, Receiving, Armed;
    ReceivingRx(s, i);
    var b := slave.byte(|s.h.logs[i].bytes|);
    ClockKeepsReceiving(s, i, b);
  }

  /** The bus stops only at the watermark, unless the read is over. */
  lemma StoppedAtWatermark(s: State, i: nat)
    requires Receiving(s, i) && RxSpace(s.d) > 0 && !CanClock(s.h)
    ensures |s.h.rxFifo| == Watermark(s.h)
  {
    hide History;
  }

  lemma DynamicWatermark(s: State, i: nat)
    requires Receiving(s, i) && RxSpace(s.d) > 0 && s.d.dynamic
    ensures Watermark(s.h) == Min(RxSpace(s.d), 16)
  {
    hide History;
  }

  lemma {:induction false} FeedReachesWatermark(s: State, i: nat, slave: Slave)
    requires CalmRead(s, i, slave) && RxSpace(s.d) > 0
    ensures var r := State(s.d, Feed(s.h, slave));
            && CalmRead(r, i, slave)
            && |r.h.rxFifo| == Watermark(r.h)
            && r.h.rfd == s.h.rfd && r.h.isr == s.h.isr && r.h.ier == s.h.ier
            && (s.d.dynamic ==> |r.h.rxFifo| == Min(RxSpace(s.d), 16))
            && (s.h.bus.Idle? ==> r == s)
    decreases Watermark(s.h) - |s.h.rxFifo|
  {
    hide Clock, Receiving, Armed;
    if CanClock(s.h) {
      CalmClocks(s, i, slave);
      FeedReachesWatermark(State(s.d, Clock(s.h, slave.byte(|s.h.logs[|s.h.logs| - 1].bytes|))), i, slave);
    } else {
      StoppedAtWatermark(s, i);
      if s.d.dynamic {
        DynamicWatermark(s, i);
      }
    }
  }

  // ----- One watermark interrupt -----

  /** The handler with RX_FULL alone pending runs the read branch and nothing else. */
  lemma OnlyReadBranch(s: State, clkOk: bool)
    requires Pend(s.h) == {RxFull}
    ensures Process(s, clkOk) == Finish(RxPart(s, {RxFull}, {}), false)
  {
    hide Finish, RxPart, ErrorPass, FillState;
    assert {RxFull} * {TxEmpty, TxHalf} == {};
  }

  lemma GoesOnReading(s: State, i: nat, slave: Slave, clkOk: bool)
    requires CalmRead(s, i, slave) && |s.h.rxFifo| == Watermark(s.h)
    requires Pend(s.h) == {RxFull}
    requires var x := ReadRx(RxView(s), s.d.dynamic, s.d.nmsgs == 1); Left(x) != 0
    ensures var x := ReadRx(RxView(s), s.d.dynamic, s.d.nmsgs == 1);
            var r := Process(s, clkOk);
            CalmRead(r, i, slave) && RxView(r) == x && r.d.dynamic == s.d.dynamic
  {
    hide Process, ReadRx, Receiving, Cursor, WithRx, RxPart;
    var x := ReadRx(RxView(s), s.d.dynamic, s.d.nmsgs == 1);
    OnlyReadBranch(s, clkOk);
    ReceivingRx(s, i);
    ReadGoesOn(s, i);
    ProcessKeepsCursor(s, clkOk);
    var w, r := WithRx(s, x), Process(s, clkOk);
    WithRxFields(s, x);
    OpenPass(s, x);
    assert r == State(w.d, WriteIisr(w.h, {RxFull}));
    StillReceiving(w, r.h, i);
    assert Pend(r.h) == {};
  }

  lemma ReceivingRx(s: State, i: nat)
    requires Receiving(s, i)
    ensures s.d.rx == s.d.tx == Some(i) && i < |s.d.msgs| && i < |s.d.sent| && |s.h.logs| == i + 1
    ensures RxFull in s.h.isr && |s.h.rxFifo| == Watermark(s.h) ==> Ripe(RxView(s))
  {
  }

  lemma WithRxFields(s: State, x: RxIo)
    requires s.d.rx.Some? && s.d.rx.value < |s.d.msgs|
    ensures var t := WithRx(s, x);
            && RxView(t) == x && t.d.dynamic == s.d.dynamic && t.d.nmsgs == s.d.nmsgs
            && t.d.rx == s.d.rx && t.d.sent == s.d.sent && !t.d.warned == !s.d.warned
            && t.h == s.h.(rxFifo := x.fifo, cr := x.cr, rfd := x.rfd, underflow := x.underflow)
  {
  }

  /** The pass of a read that goes on. */
  lemma OpenPass(s: State, x: RxIo)
    requires s.d.rx.Some? && x == ReadRx(RxView(s), s.d.dynamic, s.d.nmsgs == 1) && Left(x) != 0
    ensures RxPart(s, {RxFull}, {}) == Pass(WithRx(s, x), {RxFull}, false, false, None)
    ensures Finish(Pass(WithRx(s, x), {RxFull}, false, false, None), false)
         == State(WithRx(s, x).d, WriteIisr(WithRx(s, x).h, {RxFull}))
  {
    hide ReadRx, StartNext;
  }

  lemma StillReceiving(w: State, h: Hw, i: nat)
    requires Receiving(w, i) && h == w.h.(isr := h.isr)
    ensures Receiving(State(w.d, h), i) && RxView(State(w.d, h)) == RxView(w)
  {
  }

  lemma FinishesReading(s: State, i: nat, slave: Slave, clkOk: bool)
    requires CalmRead(s, i, slave) && |s.h.rxFifo| == Watermark(s.h)
    requires Pend(s.h) == {RxFull}
    requires var x := ReadRx(RxView(s), s.d.dynamic, s.d.nmsgs == 1); Left(x) == 0
    ensures var r := Process(s, clkOk);
            && ReadFinished(r, i, s.d.sent[i], slave)
            && (s.d.nmsgs == 1 ==> Received(r, i) && Cursor(r) && Bnb in r.h.ier
                                   && Pend(r.h) == {} && r.h.logs == s.h.logs
                                   && r.d.sent == s.d.sent && r.d.dynamic == s.d.dynamic
                                   && r.h.rfd == ReadRx(RxView(s), s.d.dynamic, true).rfd)
  {
    hide Process, ReadRx, History, Reading, ReadDone, ReadRefused, TrimLen;
    OnlyReadBranch(s, clkOk);
    ProcessKeepsCursor(s, clkOk);
    ReadEnds(s, i);
    var p := RxPart(s, {RxFull}, {});
    if s.d.nmsgs > 1 {
      BoundaryFinishes(s, p, i, slave);
    } else {
      LastWatermark(s);
      LastReadFinishes(s, p, i, slave);
    }
  }

  lemma BoundaryFinishes(s: State, p: Pass, i: nat, slave: Slave)
    requires Boundary(p.s, i + 1) && p.more && p.wake.None? && p.s.h.logs == s.h.logs
    requires p.s.d.sent == s.d.sent && i < |s.d.sent| && s.d.sent[i].rd
    requires i < |s.h.logs| && SentBy(s.h.logs[i].bytes, slave)
    ensures ReadFinished(Finish(p, false), i, s.d.sent[i], slave)
  {
    var s1 := State(p.s.d, WriteIisr(p.s.h, ClearWord(p, false)));
    StartNextFrame(s1);
    assert MsgDone(s.d.sent[i], p.s.d.msgs[i], p.s.h.logs[i]);
  }

  lemma LastWatermark(s: State)
    requires s.d.rx.Some? && Left(ReadRx(RxView(s), s.d.dynamic, s.d.nmsgs == 1)) == 0
    ensures var p := RxPart(s, {RxFull}, {});
            p.s.h.rfd == ReadRx(RxView(s), s.d.dynamic, s.d.nmsgs == 1).rfd
  {
    hide ReadRx;
  }

  lemma LastReadFinishes(s: State, p: Pass, i: nat, slave: Slave)
    requires Received(p.s, i) && !p.more && p.wake.None? && p.s.h == s.h.(isr := s.h.isr, rxFifo := p.s.h.rxFifo,
               cr := p.s.h.cr, rfd := p.s.h.rfd, underflow := p.s.h.underflow)
    requires p.s.d.sent == s.d.sent && i < |s.d.sent|
    requires i < |s.h.logs| && SentBy(s.h.logs[i].bytes, slave)
    requires RxFull in s.h.isr && RxFull in p.clr && p.clr <= s.h.isr
    requires Pend(s.h) <= {RxFull} && Bnb in s.h.ier
    ensures var r := Finish(p, false);
            && ReadFinished(r, i, s.d.sent[i], slave)
            && Received(r, i) && Bnb in r.h.ier && Pend(r.h) == {} && r.h.logs == s.h.logs
            && r.d.sent == s.d.sent && r.h.rfd == p.s.h.rfd
  {
    var h := WriteIisr(p.s.h, p.clr);
    IrqsKeepRunning(p.s, h, i);
    assert forall q :: q in h.isr * h.ier ==> q in Pend(s.h) && q != RxFull;
    assert Pend(h) == {};
  }

  /** The read of message i, submitted as o, is over; if it was the last message,
      only the STOP is awaited. */
  predicate Over(r: State, i: nat, o: Msg, last: bool, slave: Slave) {
    && ReadFinished(r, i, o, slave)
    && (last ==> && Received(r, i) && r.d.sent[i] == o
                 && Cursor(r) && Bnb in r.h.ier && Pend(r.h) == {}
                 && (r.d.dynamic ==> r.h.rfd == 255))
  }

  /** The read goes on, with strictly fewer bytes outstanding or, after the count
      byte of a block read, with its length settled. */
  predicate Nearer(s: State, r: State, i: nat, slave: Slave) {
    && CalmRead(r, i, slave) && RxSpace(r.d) > 0
    && r.d.sent == s.d.sent && r.d.nmsgs == s.d.nmsgs && r.d.dynamic == s.d.dynamic
    && !RxMsg(r.d).recvLen
    && (!RxMsg(s.d).recvLen ==> RxSpace(r.d) < RxSpace(s.d))
  }

  // ----- The NACK of the last byte -----

  /** Once a byte has been NACKed the FIFO holds all that is left of the message. */
  lemma NackedHoldsRest(s: State, i: nat, slave: Slave)
    requires CalmRead(s, i, slave) && RxSpace(s.d) > 0 && s.h.bus == Idle
    ensures |s.h.rxFifo| == RxSpace(s.d) && !RxMsg(s.d).recvLen
    ensures s.d.rxPos + RxSpace(s.d) <= |RxMsg(s.d).buf|
    ensures Left(ReadRx(RxView(s), s.d.dynamic, s.d.nmsgs == 1)) == 0
    ensures RxFull in s.h.ier && TxError in s.h.ier && TxError !in s.h.isr && ArbLost !in Pend(s.h)
    ensures Cursor(s) && s.d.rx.Some?
  {
    hide History, ReadRx;
    assert TxError !in Pend(s.h);
    EarlyReadFinishes(RxView(s), s.d.dynamic, s.d.nmsgs == 1);
  }

  /** The handler with both pending. */
  lemma BothReadBranch(s: State, clkOk: bool)
    requires Pend(s.h) == {RxFull, TxError}
    ensures Process(s, clkOk) == Finish(RxPart(s, {RxFull, TxError}, {}), false)
  {
    hide Finish, RxPart, ErrorPass, FillState;
    assert {RxFull, TxError} * {TxEmpty, TxHalf} == {};
  }

  /** A read that ends clears TX_ERROR with RX_FULL. */
  lemma JointIsFull(s: State, clkOk: bool)
    requires Pend(s.h) == {RxFull} && TxError in s.h.ier && TxError !in s.h.isr && s.d.rx.Some?
    requires Left(ReadRx(RxView(s), s.d.dynamic, s.d.nmsgs == 1)) == 0
    ensures Process(State(s.d, s.h.(isr := s.h.isr + {TxError})), clkOk) == Process(s, clkOk)
  {
    hide Process, RxPart, Finish;
    var t := State(s.d, s.h.(isr := s.h.isr + {TxError}));
    assert Pend(t.h) == {RxFull, TxError};
    BothReadBranch(t, clkOk);
    OnlyReadBranch(s, clkOk);
    EndOfBoth(s, t);
    SameAfterClearing(s, RxPart(s, {RxFull}, {}), RxPart(t, {RxFull, TxError}, {}));
  }

  lemma EndOfBoth(s: State, t: State)
    requires t == State(s.d, s.h.(isr := s.h.isr + {TxError})) && s.d.rx.Some?
    requires RxFull in s.h.isr && TxError !in s.h.isr
    requires Left(ReadRx(RxView(s), s.d.dynamic, s.d.nmsgs == 1)) == 0
    ensures var p, q := RxPart(s, {RxFull}, {}), RxPart(t, {RxFull, TxError}, {});
            && p.clr == {RxFull} && q.clr == {RxFull, TxError} && p.s.h.isr == s.h.isr
            && q == p.(clr := q.clr, s := State(p.s.d, p.s.h.(isr := s.h.isr + {TxError})))
  {
    hide ReadRx, TrimLen;
    var x := ReadRx(RxView(s), s.d.dynamic, s.d.nmsgs == 1);
    assert RxView(t) == RxView(s);
    assert {} + {RxFull} + (s.h.isr * {TxError}) == {RxFull};
    assert {} + {RxFull} + (t.h.isr * {TxError}) == {RxFull, TxError};
  }

  lemma SameAfterClearing(s: State, p: Pass, q: Pass)
    requires p.clr == {RxFull} && q.clr == {RxFull, TxError} && p.s.h.isr == s.h.isr
    requires RxFull in s.h.isr && TxError !in s.h.isr
    requires q == p.(clr := q.clr, s := State(p.s.d, p.s.h.(isr := s.h.isr + {TxError})))
    ensures Finish(q, false) == Finish(p, false)
  {
    hide StartNext;
    assert WriteIisr(q.s.h, q.clr).isr == WriteIisr(p.s.h, p.clr).isr;
  }

  /** TX_ERROR alone, before RX_FULL or in its stead. */
  lemma EarlyIsJoint(s: State, i: nat, slave: Slave, clkOk: bool)
    requires CalmRead(s, i, slave) && RxSpace(s.d) > 0 && s.h.bus == Idle
    ensures Process(State(s.d, s.h.(isr := s.h.isr + {TxError})), clkOk)
         == Process(State(s.d, s.h.(isr := s.h.isr + {RxFull, TxError})), clkOk)
  {
    hide Process, ReadRx, Cursor, CalmRead;
    NackedHoldsRest(s, i, slave);
    var t := State(s.d, s.h.(isr := s.h.isr + {TxError}));
    assert WithRxFull(t) == State(s.d, s.h.(isr := s.h.isr + {RxFull, TxError}));
    if RxFull in s.h.isr {
      assert WithRxFull(t) == t;
    } else {
      LatchedCursor(s, t);
      assert TxError in Pend(t.h) && ArbLost !in Pend(t.h);
      EarlyEqualsLate(t, clkOk);
    }
  }

  lemma LatchedCursor(s: State, t: State)
    requires Cursor(s) && t == State(s.d, s.h.(isr := t.h.isr))
    ensures Cursor(t) && RxMsg(t.d) == RxMsg(s.d)
  {
  }

  /** Whenever the NACK raises TX_ERROR, the round has the same outcome. */
  lemma RoundIsFull(s: State, i: nat, slave: Slave, clkOk: bool)
    requires CalmRead(s, i, slave) && RxSpace(s.d) > 0
    ensures Round(s, slave, clkOk) == FullRound(s, slave, clkOk)
  {
    hide Process, Feed, CalmRead, ReadRx;
    FeedReachesWatermark(s, i, slave);
    var u := State(s.d, Feed(s.h, slave));
    if u.h.bus == Idle && u.h.rxFifo != [] {
      NackedHoldsRest(u, i, slave);
      EarlyIsJoint(u, i, slave, clkOk);
      var t := State(u.d, u.h.(isr := u.h.isr + {RxFull}));
      assert t.h.isr + {TxError} == u.h.isr + {RxFull, TxError};
      CalmPends(u, i, slave);
      assert Pend(t.h) == {RxFull};
      assert RxView(t) == RxView(u);
      JointIsFull(t, clkOk);
    }
  }

  lemma CalmPends(s: State, i: nat, slave: Slave)
    requires CalmRead(s, i, slave)
    ensures Pend(s.h) <= {RxFull}
  {
  }

  // ----- Progress -----

  lemma RoundProgress(s: State, i: nat, slave: Slave, clkOk: bool)
    requires CalmRead(s, i, slave) && RxSpace(s.d) > 0
    ensures var r := Round(s, slave, clkOk);
            || Over(r, i, s.d.sent[i], s.d.nmsgs == 1, slave)
            || Nearer(s, r, i, slave)
    ensures s.d.dynamic && s.h.rxFifo == [] ==>
              var r := Round(s, slave, clkOk);
              if RxSpace(s.d) <= 16 then Over(r, i, s.d.sent[i], s.d.nmsgs == 1, slave)
              else Nearer(s, r, i, slave) && r.h.rxFifo == [] && RxSpace(r.d) == RxSpace(s.d) - 16
  {
    hide Process, Feed;
    RoundIsFull(s, i, slave, clkOk);
    FeedReachesWatermark(s, i, slave);
    var t := State(s.d, Latch(Feed(s.h, slave), {RxFull}));
    IrqsKeepRunning(State(s.d, Feed(s.h, slave)), t.h, i);
    assert RxView(t) == RxView(State(s.d, Feed(s.h, slave)));
    RipeProgress(t, i, slave, clkOk);
  }

  /** The same from the moment RX_FULL is raised. */
  lemma RipeProgress(t: State, i: nat, slave: Slave, clkOk: bool)
    requires CalmRead(t, i, slave) && RxSpace(t.d) > 0 && |t.h.rxFifo| == Watermark(t.h)
    requires Pend(t.h) == {RxFull}
    ensures var r := Process(t, clkOk);
            || Over(r, i, t.d.sent[i], t.d.nmsgs == 1, slave)
            || Nearer(t, r, i, slave)
    ensures t.d.dynamic ==>
              var r := Process(t, clkOk);
              if RxSpace(t.d) == |t.h.rxFifo| then Over(r, i, t.d.sent[i], t.d.nmsgs == 1, slave)
              else Nearer(t, r, i, slave) && r.h.rxFifo == []
                   && RxSpace(r.d) == RxSpace(t.d) - |t.h.rxFifo|
  {
    hide Process, ReadRx, Receiving, Received, Armed, Cursor, ReadDone, ReadRefused;
    var x := ReadRx(RxView(t), t.d.dynamic, t.d.nmsgs == 1);
    RipeChunk(t, i);
    if Left(x) != 0 {
      GoesOnReading(t, i, slave, clkOk);
      ProcessKeepsCursor(t, clkOk);
      SameTransfer(t, i, clkOk);
    } else {
      FinishesReading(t, i, slave, clkOk);
    }
  }

  /** What the read branch does to the message. */
  lemma RipeChunk(t: State, i: nat)
    requires Receiving(t, i) && |t.h.rxFifo| == Watermark(t.h) && RxSpace(t.d) > 0
    ensures var x := ReadRx(RxView(t), t.d.dynamic, t.d.nmsgs == 1);
            && (Left(x) != 0 ==> Left(x) > 0 && !x.m.recvLen
                                 && (!RxMsg(t.d).recvLen ==> Left(x) < RxSpace(t.d)))
            && (t.d.dynamic ==> && Left(x) == RxSpace(t.d) - |t.h.rxFifo| && x.fifo == []
                                && (Left(x) == 0 ==> x.rfd == 255))
  {
    hide History, ReadRx;
    ReceivingRx(t, i);
    var x := ReadRx(RxView(t), t.d.dynamic, t.d.nmsgs == 1);
    ReadKeepsOrder(t.d.sent[i], RxView(t), t.h.logs[i], t.h.bus, t.d.dynamic, t.d.nmsgs == 1);
    if t.d.dynamic {
      DynamicChunk(RxView(t), t.d.nmsgs == 1);
    } else if Left(x) != 0 && !RxMsg(t.d).recvLen {
      StaysSettled(RxView(t), t.d.nmsgs == 1);
    }
  }

  lemma StaysSettled(x: RxIo, last: bool)
    requires !x.m.recvLen
    ensures !ReadRx(x, false, last).m.recvLen
  {
    hide Available, Left;
    var avail := Available(x);
    var rem := Left(x) - avail;
    BytesStaySettled(x, avail);
    BytesStaySettled(x, rem - 1);
    BytesStaySettled(x.(cr := x.cr + {NoAck}), 1);
    BytesStaySettled(x.(cr := (if last then x.cr - {Msms} else x.cr) - {NoAck}), avail);
  }

  lemma {:induction false} BytesStaySettled(x: RxIo, n: int)
    ensures ReadBytes(x, n).m.recvLen == x.m.recvLen
    decreases n
  {
    if n > 0 {
      BytesStaySettled(ReadByte(x), n - 1);
    }
  }

  /** A read that goes on is still message i of the same transfer. */
  lemma SameTransfer(t: State, i: nat, clkOk: bool)
    requires Cursor(t) && Receiving(t, i) && Receiving(Process(t, clkOk), i)
    ensures Process(t, clkOk).d.sent == t.d.sent && Process(t, clkOk).d.nmsgs == t.d.nmsgs
  {
    hide Process, Reading, NackShape;
    ProcessKeepsCursor(t, clkOk);
  }

  // ----- Whole reads -----

  /** RFD is never programmed above 15. */
  lemma RfdFits(s: State, i: nat)
    requires Receiving(s, i)
    ensures s.h.rfd <= 15
  {
    assert ValidAt(s.d.sent, s.d.dynamic, i);
  }

  /** Message i is being read before each of the first k rounds. */
  predicate ReadingFor(s: State, i: nat, slave: Slave, clkOk: bool, k: nat) {
    forall j {:trigger Rounds(s, slave, clkOk, j)} :: 0 <= j < k ==>
      CalmRead(Rounds(s, slave, clkOk, j), i, slave)
  }

  lemma ReadingForOneMore(s: State, i: nat, slave: Slave, clkOk: bool, k: nat)
    requires CalmRead(s, i, slave) && ReadingFor(Round(s, slave, clkOk), i, slave, clkOk, k)
    ensures ReadingFor(s, i, slave, clkOk, k + 1)
  {
    forall j {:trigger Rounds(s, slave, clkOk, j)} | 0 <= j < k + 1
      ensures CalmRead(Rounds(s, slave, clkOk, j), i, slave)
    {
      if j > 0 {
        FirstRound(s, slave, clkOk, j - 1);
      }
    }
  }

  lemma FirstRound(s: State, slave: Slave, clkOk: bool, n: nat)
    ensures Rounds(s, slave, clkOk, n + 1) == Rounds(Round(s, slave, clkOk), slave, clkOk, n)
    ensures Rounds(s, slave, clkOk, 0) == s
  {
  }

  /** Every read ends: the number of bytes outstanding is the measure. */
  lemma {:induction false} ReadTerminates(s: State, i: nat, slave: Slave, clkOk: bool)
      returns (k: nat)
    requires CalmRead(s, i, slave) && RxSpace(s.d) > 0
    ensures Over(Rounds(s, slave, clkOk, k), i, s.d.sent[i], s.d.nmsgs == 1, slave)
    ensures ReadingFor(s, i, slave, clkOk, k)
    decreases RxMsg(s.d).recvLen, RxSpace(s.d)
  {
    hide Process, Feed, Latch, Armed, Cursor, Receiving, Received, ReadFinished;
    RoundProgress(s, i, slave, clkOk);
    var r := Round(s, slave, clkOk);
    if Over(r, i, s.d.sent[i], s.d.nmsgs == 1, slave) {
      k := 1;
      FirstRound(s, slave, clkOk, 0);
      FirstRound(r, slave, clkOk, 0);
      ReadingForOneMore(s, i, slave, clkOk, 0);
    } else {
      var k1 := ReadTerminates(r, i, slave, clkOk);
      k := k1 + 1;
      FirstRound(s, slave, clkOk, k1);
      ReadingForOneMore(s, i, slave, clkOk, k1);
    }
  }

  /** The buffer holds the slave's first len bytes; exactly that many were clocked,
      and the last one, alone, was not acknowledged. */
  predicate HoldsFirst(s: State, i: nat, len: nat, clocked: nat, slave: Slave) {
    && i < |s.d.msgs| && i < |s.h.logs|
    && var m, log := s.d.msgs[i], s.h.logs[i];
    && m.len == len <= |m.buf|
    && |log.bytes| == |log.nacks| == clocked
    && (forall j :: 0 <= j < len ==> m.buf[j] == slave.byte(j))
    && (forall j :: 0 <= j < clocked ==> (log.nacks[j] <==> j == clocked - 1))
  }

  lemma DoneHoldsFirst(s: State, i: nat, o: Msg, slave: Slave)
    requires ReadFinished(s, i, o, slave) && ReadDone(o, s.d.msgs[i], s.h.logs[i])
    ensures HoldsFirst(s, i, s.d.msgs[i].len, |s.h.logs[i].bytes|, slave)
  {
    var m, log := s.d.msgs[i], s.h.logs[i];
    forall j | 0 <= j < m.len
      ensures m.buf[j] == slave.byte(j)
    {
      assert m.buf[..m.len][j] == log.bytes[..m.len][j];
    }
  }

  /** Every read of any length and from any slave, in either mode, ends after finitely many
      interrupts with the slave's bytes in the buffer. As long as it lasts RFD is at most
      15; the last chunk of a dynamic read writes 255, of which the controller keeps 15. */
  lemma PlainRead(s: State, i: nat, slave: Slave, clkOk: bool) returns (k: nat)
    requires CalmRead(s, i, slave) && RxSpace(s.d) > 0
    requires !s.d.sent[i].recvLen
    ensures var len := s.d.sent[i].len;
            HoldsFirst(Rounds(s, slave, clkOk, k), i, len, len, slave)
    ensures forall j {:trigger Rounds(s, slave, clkOk, j)} :: 0 <= j < k ==>
              Receiving(Rounds(s, slave, clkOk, j), i) && Rounds(s, slave, clkOk, j).h.rfd <= 15
    ensures s.d.nmsgs == 1 && s.d.dynamic ==> Rounds(s, slave, clkOk, k).h.rfd == 255
  {
    k := ReadTerminates(s, i, slave, clkOk);
    RoundsKeepCursor(s, slave, clkOk, k);
    DoneHoldsFirst(Rounds(s, slave, clkOk, k), i, s.d.sent[i], slave);
    ReadingForFits(s, i, slave, clkOk, k);
  }

  lemma ReadingForFits(s: State, i: nat, slave: Slave, clkOk: bool, k: nat)
    requires ReadingFor(s, i, slave, clkOk, k)
    ensures forall j {:trigger Rounds(s, slave, clkOk, j)} :: 0 <= j < k ==>
              Receiving(Rounds(s, slave, clkOk, j), i) && Rounds(s, slave, clkOk, j).h.rfd <= 15
  {
    forall j {:trigger Rounds(s, slave, clkOk, j)} | 0 <= j < k
      ensures Receiving(Rounds(s, slave, clkOk, j), i) && Rounds(s, slave, clkOk, j).h.rfd <= 15
    {
      var t := Rounds(s, slave, clkOk, j);
      assert CalmRead(t, i, slave);
      RfdFits(t, i);
    }
  }

  /** In every state of a read, in either mode, whatever interrupts are about: the
      byte that the bus may clock in next will be refused with a NACK exactly if it
      is the last one of the message. */
  lemma LastByteAloneIsNacked(s: State, i: nat)
    requires Receiving(s, i) && CanClock(s.h) && !RxMsg(s.d).recvLen
    ensures NackNext(s.h) <==> RxSpace(s.d) - |s.h.rxFifo| == 1
  {
    AckRule(s.d.sent[i], RxView(s), s.h.logs[i], s.h.bus, s.d.dynamic);
  }

  lemma AckRule(o: Msg, x: RxIo, log: ReadLog, bus: BusRead, dynamic: bool)
    requires Reading(o, x, log, bus, dynamic) && !x.m.recvLen
    requires bus != Idle && |x.fifo| < x.rfd % 16 + 1
    ensures (if bus.Std? then NoAck in x.cr else bus.left <= 1) <==> Left(x) - |x.fifo| == 1
  {
  }

  /** ceil(n / 16) */
  function Chunks(n: int): int {
    (n + 15) / 16
  }

  /** Before round j, 16 * j bytes have been taken and RFD asks for the next chunk. */
  predicate ChunkAt(t: State, i: nat, space: int, j: int) {
    && Receiving(t, i) && RxSpace(t.d) == space - 16 * j
    && t.h.rfd == Min(RxSpace(t.d), 16) - 1
  }

  predicate ChunksFor(s: State, i: nat, slave: Slave, clkOk: bool, space: int, k: int) {
    forall j: nat {:trigger Rounds(s, slave, clkOk, j)} :: j < k ==>
      ChunkAt(Rounds(s, slave, clkOk, j), i, space, j)
  }

  lemma ChunksForOneMore(s: State, i: nat, slave: Slave, clkOk: bool, space: int, k: nat)
    requires ChunkAt(s, i, space, 0)
    requires ChunksFor(Round(s, slave, clkOk), i, slave, clkOk, space - 16, k)
    ensures ChunksFor(s, i, slave, clkOk, space, k + 1)
  {
    forall j: nat {:trigger Rounds(s, slave, clkOk, j)} | j < k + 1
      ensures ChunkAt(Rounds(s, slave, clkOk, j), i, space, j)
    {
      if j > 0 {
        FirstRound(s, slave, clkOk, j - 1);
        assert ChunkAt(Rounds(Round(s, slave, clkOk), slave, clkOk, j - 1), i, space - 16, j - 1);
      }
    }
  }

  lemma DynamicRfd(s: State, i: nat)
    requires Receiving(s, i) && s.d.dynamic && RxSpace(s.d) > 0
    ensures ChunkAt(s, i, RxSpace(s.d), 0)
  {
  }

  /** A dynamic-mode read drains in exactly ceil(len / 16) RX_FULL interrupts, and
      each of them but the last leaves RFD at min(remaining, 16) - 1. */
  lemma {:induction false} DynamicReadRounds(s: State, i: nat, slave: Slave, clkOk: bool)
    requires CalmRead(s, i, slave) && s.d.dynamic && s.h.rxFifo == [] && RxSpace(s.d) > 0
    ensures var k := Chunks(RxSpace(s.d));
            && k >= 1
            && Over(Rounds(s, slave, clkOk, k), i, s.d.sent[i], s.d.nmsgs == 1, slave)
            && ChunksFor(s, i, slave, clkOk, RxSpace(s.d), k)
    decreases RxSpace(s.d)
  {
    hide Process, Feed, Latch, Armed, Cursor, Receiving, Received, ReadFinished, ChunkAt;
    DynamicRfd(s, i);
    RoundProgress(s, i, slave, clkOk);
    var r, space := Round(s, slave, clkOk), RxSpace(s.d);
    if space <= 16 {
      FirstRound(s, slave, clkOk, 0);
      FirstRound(r, slave, clkOk, 0);
      ChunksForOneMore(s, i, slave, clkOk, space, 0);
    } else {
      DynamicReadRounds(r, i, slave, clkOk);
      var k := Chunks(space - 16);
      FirstRound(s, slave, clkOk, k);
      ChunksForOneMore(s, i, slave, clkOk, space, k);
    }
  }

  // ----- SMBus block reads -----

  /** The outcome of the STOP that ends a transfer whose last message is a read. */
  lemma StopReports(s: State, i: nat, clkOk: bool)
    requires Received(s, i) && Cursor(s) && Bnb in s.h.ier && Pend(s.h) == {}
    ensures var r, refused := FreeBus(s, clkOk), s.d.sent[i].recvLen && !s.d.blockRead;
            && r.d.completed == 1 && r.d.msgs == s.d.msgs && r.h.logs == s.h.logs
            && r.d.status == (if refused then Error else Done)
  {
    var h := Latch(s.h, {Bnb});
    assert Pend(h) == {Bnb};
    OnlyBnb(State(s.d, h), clkOk);
    ReceivedSpace(s, i);
  }

  lemma OnlyBnb(s: State, clkOk: bool)
    requires Pend(s.h) == {Bnb} && s.d.tx.Some? && s.d.rx.None? && s.d.nmsgs == 1
    ensures var r := Process(s, clkOk);
            && r.d.completed == s.d.completed + 1 && r.d.msgs == s.d.msgs && r.h.logs == s.h.logs
            && r.d.status == (if s.d.blockRead || TxSpace(s.d) == 0 then Done else Error)
  {
    hide Process, StartNext;
    OnlyBnbBranch(s, clkOk);
  }

  lemma OnlyBnbBranch(s: State, clkOk: bool)
    requires Pend(s.h) == {Bnb}
    ensures Process(s, clkOk) == Finish(BnbPart(Pass(s, {}, false, false, None), {Bnb}), false)
  {
    hide Finish, BnbPart, ErrorPass, FillState, ReadRx;
    assert {Bnb} * {TxEmpty, TxHalf} == {};
  }

  lemma ReceivedSpace(s: State, i: nat)
    requires Received(s, i)
    ensures s.d.tx == Some(i) && s.d.rx.None? && s.d.nmsgs == 1
    ensures s.d.sent[i].recvLen && !s.d.blockRead <==> !(s.d.blockRead || TxSpace(s.d) == 0)
  {
    assert ValidAt(s.d.sent, s.d.dynamic, i);
  }

  /** A block read whose count n is in range ends in Done: the message length is
      1 + n plus the PEC byte, the buffer holds the slave's bytes, buf[0] is n, and
      max(3, length) bytes were clocked, the last one alone NACKed. Any larger
      count ends in Error. RFD is never programmed above 15. */
  lemma BlockRead(s: State, i: nat, slave: Slave, clkOk: bool) returns (k: nat)
    requires CalmRead(s, i, slave) && s.d.sent[i].recvLen && RxMsg(s.d).recvLen
    ensures var r, o, n := FreeBus(Rounds(s, slave, clkOk, k), clkOk), s.d.sent[i], slave.byte(0);
            var len := o.len + n;  // o.len is 1, or 2 with PEC
            && r.d.completed == 1
            && (r.d.status == Done <==> n <= 32)
            && (r.d.status == Error <==> n > 32)
            && (n <= 32 ==>
                  HoldsFirst(r, i, len, if len < 3 then 3 else len, slave)
                  && r.d.msgs[i].buf[0] == n)
    ensures forall j {:trigger Rounds(s, slave, clkOk, j)} :: 0 <= j < k ==>
              Receiving(Rounds(s, slave, clkOk, j), i) && Rounds(s, slave, clkOk, j).h.rfd <= 15
  {
    assert ValidAt(s.d.sent, s.d.dynamic, i);
    k := ReadTerminates(s, i, slave, clkOk);
    var e := Rounds(s, slave, clkOk, k);
    StopReports(e, i, clkOk);
    if ReadDone(s.d.sent[i], e.d.msgs[i], e.h.logs[i]) {
      DoneHoldsFirst(e, i, s.d.sent[i], slave);
    }
    ReadingForFits(s, i, slave, clkOk, k);
  }

  // ----- Whole transfers of one read -----

  /** A driver between transfers, on a controller with no interrupt pending; a bus
      found free; and one message, a read of at least one byte. */
  predicate CanRead(s: State, m: Msg, c: Config) {
    && StartXferRet(s, c, (false, false)).Ok? && Pend(s.h) == {} && !s.d.blockRead
    && m.rd && m.len > 0 && ValidTransfer([m], UsesDynamic([m], c.readBroken))
  }

  function Submitted(s: State, m: Msg, c: Config): State {
    State(Submit(s.d, [m], c.readBroken), ReinitHw(ClearHistory(s.h), c.clkOk))
  }

  /** Starting leaves nothing pending: what is enabled has just been cleared. */
  lemma ClearedIsNotPending(h: Hw, mask: set<Irq>)
    ensures Pend(IrqClrEn(h, mask)) == Pend(h) - mask
    ensures IrqClrEn(h, mask) == h.(isr := h.isr - mask, ier := h.ier + mask)
  {
    hide IrqClrEn;
    ClrEnFields(h, mask);
  }

  lemma ReinitPends(h: Hw)
    requires Pend(h) == {}
    ensures Pend(ReinitHw(h, true)) == {} && ReinitHw(h, true).polls == h.polls
  {
    ClearedIsNotPending(Reset(h).(rfd := 15, cr := {Enable}), {ArbLost});
  }

  lemma RecvHwPends(h: Hw, m: Msg, last: bool)
    requires Pend(h) == {}
    ensures var r := RecvDynamicHw(h, m, last); Pend(r) == {} && r.polls == h.polls
    ensures var r := RecvStandardHw(h, m); Pend(r) == {} && r.polls == h.polls
  {
    hide RecvDynamicHw, RecvStandardHw;
    RecvHwFrame(h, m, last);
    var a, b := {RxFull, TxError, Bnb}, {RxFull, TxError};
    assert (h.isr - a) * (h.ier + a) <= Pend(h);
    assert (h.isr - b) * (h.ier + b) <= Pend(h);
  }

  /** So a read is begun with nothing pending, whatever was latched before. */
  lemma RecvPends(s: State)
    requires Pend(s.h) == {} && (s.d.dynamic || s.h.polls == [] || !s.d.prevTx)
    ensures var r := StartRecv(s);
            Pend(r.h) == {} && r.h.timedOut == s.h.timedOut && r.h.polls == s.h.polls
  {
    hide RecvDynamicHw, RecvStandardHw, IrqClrEn;
    var h, m, last := IrqDis(s.h, {TxHalf, TxEmpty}), TxMsg(s.d), s.d.nmsgs == 1;
    PolledIsNotPending(s.h);
    RecvHwPends(h, m, last);
    RecvHwPends(Poll(h), m, last);
    RecvHwKeepsAstray(h, m, last);
    RecvHwKeepsAstray(Poll(h), m, last);
    ClearedIsNotPending(RecvDynamicHw(h, m, last), {Bnb});
    ClearedIsNotPending(RecvStandardHw(h, m), {Bnb});
    ClearedIsNotPending(RecvStandardHw(Poll(h), m), {Bnb});
  }

  lemma PolledIsNotPending(h: Hw)
    requires Pend(h) == {}
    ensures var g := IrqDis(h, {TxHalf, TxEmpty});
            && Pend(g) == {} && g.polls == h.polls && g.timedOut == h.timedOut
            && Pend(Poll(g)) == {}
            && (h.polls == [] ==> Poll(g).polls == [] && Poll(g).timedOut == h.timedOut)
  {
  }

  lemma SubmittedFields(s: State, m: Msg, c: Config)
    requires CanRead(s, m, c)
    ensures var t := Submitted(s, m, c);
            && t.d.msgs == [m] && t.d.sent == [m] && t.d.tx == Some(0) && TxMsg(t.d) == m
            && !t.d.prevTx && t.d.nmsgs == 1 && t.h.logs == [] && !Astray(t.h)
            && Pend(t.h) == {} && t.h.polls == s.h.polls
  {
    ReinitPends(ClearHistory(s.h));
  }

  lemma OneReadStarts(s: State, m: Msg, slave: Slave, c: Config)
    requires CanRead(s, m, c)
    ensures var r := StartXfer(s, [m], c, (false, false));
            && CalmRead(r, 0, slave) && r.h.rxFifo == [] && RxMsg(r.d) == m && RxSpace(r.d) == m.len
            && r.d.sent == [m] && r.d.nmsgs == 1 && r.d.dynamic == UsesDynamic([m], c.readBroken)
  {
    hide ReinitHw, StartNext, Receiving, Armed, Cursor, ClearHistory;
    var t := Submitted(s, m, c);
    SubmittedFields(s, m, c);
    var r := StartNext(t);
    assert StartXfer(s, [m], c, (false, false)) == r;
    StartXferSetsCursor(s, [m], c, (false, false));
    SubmittedIsBoundary(s.d, s.h, [m], c);
    StartNextBegins(t, 0);
    StartStray(t);
    StartNextFrame(t);
    ReadPends(t);
    FreshIsCalm(r, m, slave);
  }

  lemma ReadPends(s: State)
    requires s.d.tx.Some? && TxMsg(s.d).rd && Pend(s.h) == {}
    requires s.d.dynamic || s.h.polls == [] || !s.d.prevTx
    ensures var r := StartNext(s);
            Pend(r.h) == {} && r.h.timedOut == s.h.timedOut && r.h.polls == s.h.polls
  {
    hide StartRecv;
    RecvPends(Opened(s));
  }

  lemma FreshIsCalm(r: State, m: Msg, slave: Slave)
    requires Fresh(r, 0) && r.d.sent == [m] && r.d.msgs == [m] && r.h.logs == [ReadLog([], [])]
    requires Pend(r.h) == {} && Armed(r) && Cursor(r) && r.d.rx == Some(0)
    ensures CalmRead(r, 0, slave) && RxMsg(r.d) == m && RxSpace(r.d) == m.len
  {
  }

  /** A transfer of one read, of any length the driver takes and from any slave,
      returns 1 with the slave's bytes in the buffer, exactly that many clocked and
      the last one alone NACKed; in dynamic mode after ceil(len / 16) interrupts. */
  lemma OneReadTransfer(s: State, m: Msg, slave: Slave, c: Config) returns (k: nat)
    requires CanRead(s, m, c) && !m.recvLen
    ensures var r := FreeBus(Rounds(StartXfer(s, [m], c, (false, false)), slave, true, k), true);
            && XferRet(r) == Ok(1) && HoldsFirst(r, 0, m.len, m.len, slave)
    ensures UsesDynamic([m], c.readBroken) ==> k == Chunks(m.len)
  {
    hide Process, Rounds, CalmRead, Received, Cursor, StartXfer, HoldsFirst;
    OneReadStarts(s, m, slave, c);
    var s1 := StartXfer(s, [m], c, (false, false));
    if s1.d.dynamic {
      DynamicReadRounds(s1, 0, slave, true);
      k := Chunks(m.len);
    } else {
      k := ReadTerminates(s1, 0, slave, true);
    }
    OverReturns(Rounds(s1, slave, true, k), m, slave);
  }

  /** Once the only message is over, the STOP makes xiic_xfer return. */
  lemma OverReturns(e: State, m: Msg, slave: Slave)
    requires Over(e, 0, m, true, slave)
    ensures var r := FreeBus(e, true);
            if ReadDone(m, e.d.msgs[0], e.h.logs[0])
            then XferRet(r) == Ok(1) && HoldsFirst(r, 0, e.d.msgs[0].len, |e.h.logs[0].bytes|, slave)
            else XferRet(r) == EIo
  {
    hide Process, Cursor;
    StopReports(e, 0, true);
    FreeBusKeepsCursor(e, true);
    if ReadDone(m, e.d.msgs[0], e.h.logs[0]) {
      DoneHoldsFirst(e, 0, m, slave);
    }
  }

  lemma FreeBusKeepsCursor(s: State, clkOk: bool)
    requires Cursor(s)
    ensures Cursor(FreeBus(s, clkOk)) && FreeBus(s, clkOk).d.sent == s.d.sent
  {
    hide Process;
    ProcessKeepsCursor(State(s.d, Latch(s.h, {Bnb})), clkOk);
  }

  lemma FeedKeepsCursor(s: State, slave: Slave)
    requires Cursor(s)
    ensures var h := Feed(s.h, slave); Cursor(State(s.d, Latch(h, RoundBits(h, slave.nack))))
  {
    FeedKeepsEnables(s.h, slave);
  }

  lemma {:induction false} FeedKeepsEnables(h: Hw, slave: Slave)
    ensures Feed(h, slave).ier == h.ier
    decreases Watermark(h) - |h.rxFifo|
  {
    if CanClock(h) {
      FeedKeepsEnables(Clock(h, slave.byte(|h.logs[|h.logs| - 1].bytes|)), slave);
    }
  }

  lemma {:induction false} RoundsKeepCursor(s: State, slave: Slave, clkOk: bool, n: nat)
    requires Cursor(s)
    ensures var r := Rounds(s, slave, clkOk, n);
            Cursor(r) && r.d.sent == s.d.sent && r.d.dynamic == s.d.dynamic
    decreases n
  {
    hide Process, Cursor, Feed;
    if n > 0 {
      FeedKeepsCursor(s, slave);
      var h := Feed(s.h, slave);
      ProcessKeepsCursor(State(s.d, Latch(h, RoundBits(h, slave.nack))), clkOk);
      RoundsKeepCursor(Round(s, slave, clkOk), slave, clkOk, n - 1);
    }
  }

  /** A transfer of one block read returns 1 exactly if the count n is at most 32, and
      then leaves 1 + n bytes, and the PEC byte if any, in the buffer. */
  lemma OneBlockTransfer(s: State, m: Msg, slave: Slave, c: Config) returns (k: nat)
    requires CanRead(s, m, c) && m.recvLen
    ensures var r := FreeBus(Rounds(StartXfer(s, [m], c, (false, false)), slave, true, k), true);
            var len := m.len + slave.byte(0);
            && (XferRet(r) == Ok(1) <==> slave.byte(0) <= 32)
            && (XferRet(r) == EIo <==> slave.byte(0) > 32)
            && (slave.byte(0) <= 32 ==>
                  HoldsFirst(r, 0, len, if len < 3 then 3 else len, slave))
  {
    hide Process, Rounds, CalmRead, Received, Cursor, StartXfer, HoldsFirst;
    OneReadStarts(s, m, slave, c);
    var s1 := StartXfer(s, [m], c, (false, false));
    CalmHasCursor(s1, slave);
    k := BlockRead(s1, 0, slave, true);
    RoundsKeepCursor(s1, slave, true, k);
    FreeBusKeepsCursor(Rounds(s1, slave, true, k), true);
  }

  lemma CalmHasCursor(s: State, slave: Slave)
    requires CalmRead(s, 0, slave)
    ensures Cursor(s)
  {
  }
}
