/** Whole transfers when the bus cooperates: slaves send, the TX FIFO drains, waits
    succeed, and the bus becomes free once STOP has been asked for. Which transfers
    then end, with every message done, and which wait for ever. */
module XiicProgress {
  import opened Wrappers
  import opened XiicDevice
  import opened XiicSpec
  import opened XiicEncode
  import opened XiicReading
  import opened XiicCursor
  import opened XiicTransfer
  import opened XiicHandler
  import opened XiicReads
  import opened XiicStop

  /** What the slave of each message sends. */
  type Slaves = nat -> Slave

  /** Nothing is left to do but the STOP. */
  predicate OnlyStopLeft(d: Drv) {
    d.nmsgs == 1 && d.rx.None? && (TxMsg(d).rd || TxSpace(d) == 0)
  }

  /** Has the bus been told to stop? Dynamic mode says so in its last word. */
  predicate StopAsked(s: State) {
    s.d.dynamic || Msms !in s.h.cr
  }

  /** The next interrupt of a cooperating bus. */
  function BusRound(s: State, slaves: Slaves): State {
    if s.d.tx.None? then s
    else if s.d.rx.Some? then Round(s, slaves(s.d.tx.value), true)
    else if !OnlyStopLeft(s.d) then SendRound(s)
    else if StopAsked(s) then FreeBus(s, true)
    else s
  }

  /** The TX FIFO runs empty. */
  function SendRound(s: State): State {
    Process(State(s.d, Latch(Drain(s.h, 0), {TxEmpty})), true)
  }

  function BusRounds(s: State, slaves: Slaves, n: nat): State
    decreases n
  {
    if n == 0 then s else BusRounds(BusRound(s, slaves), slaves, n - 1)
  }

  /** Every read among the first k messages asks for a byte. */
  predicate ReadsAsk(msgs: seq<Msg>, k: int) {
    forall j :: 0 <= j < k && j < |msgs| && msgs[j].rd ==> msgs[j].len > 0
  }

  predicate NonEmptyReads(msgs: seq<Msg>) {
    ReadsAsk(msgs, |msgs|)
  }

  /** The bus clocks no byte for a read that asks for none. */
  predicate SilentWhenEmpty(msgs: seq<Msg>, dynamic: bool, emptyRead: nat) {
    forall j :: 0 <= j < |msgs| ==> !ClockedEmpty(msgs[j], dynamic, emptyRead)
  }

  /** The last message, if a write in standard mode, has data to put a STOP behind. */
  predicate CanStop(sent: seq<Msg>, dynamic: bool) {
    sent != [] && (dynamic || sent[|sent| - 1].rd || sent[|sent| - 1].len > 0)
  }

  /** A transfer under way, with nothing pending; in standard mode every wait to come
      succeeds. */
  predicate Lively(s: State, slaves: Slaves) {
    && StopInv(s) && !Astray(s.h) && (s.d.dynamic || s.h.polls == [])
    && s.d.tx.Some? && Pend(s.h) == {}
    && SilentWhenEmpty(s.d.sent, s.d.dynamic, s.h.chip.emptyRead)
    && var i := s.d.tx.value;
    && i < |s.d.sent| && i < |s.h.logs|
    && ReadsAsk(s.d.sent, i + 1)
    && (if s.d.sent[i].rd
        then SentBy(s.h.logs[i].bytes, slaves(i)) && (s.d.rx.Some? ==> RxSpace(s.d) > 0)
        else TxEmpty in s.h.ier)
  }

  /** A read of no bytes on a silent bus. */
  predicate Dead(s: State) {
    && s.d.tx.Some? && s.d.rx.Some? && Pend(s.h) == {}
    && s.d.tx.value < |s.d.sent|
    && s.d.sent[s.d.tx.value].rd && s.d.sent[s.d.tx.value].len == 0
    && s.h.bus == Idle && s.h.rxFifo == []
  }

  /** Nothing changes any more, and the transfer has not ended. */
  predicate Stuck(s: State, slaves: Slaves) {
    s.d.tx.Some? && BusRound(s, slaves) == s
  }

  lemma NothingPending(s: State, clkOk: bool)
    requires Pend(s.h) == {}
    ensures Process(s, clkOk) == s
  {
    hide ReadRx, FillState, StartNext;
    assert WriteIisr(s.h, {}) == s.h;
  }

  lemma DeadIsStuck(s: State, slaves: Slaves)
    requires Dead(s)
    ensures Stuck(s, slaves)
  {
    hide Process;
    var slave := slaves(s.d.tx.value);
    assert Feed(s.h, slave) == s.h;
    assert Latch(s.h, {RxFull}) == s.h;
    NothingPending(s, true);
  }

  // ----- Starting a message leaves nothing pending -----

  lemma {:induction false} FillPends(j: TxJob, x: TxIo, n: int)
    requires j.dynamic || x.polls == []
    ensures var y := FillBytes(j, x, n);
            && y.polls == x.polls && y.timedOut == x.timedOut
            && x.isr <= y.isr <= x.isr + {TxEmpty} && (j.dynamic ==> y.isr == x.isr)
    decreases n
  {
    if n > 0 {
      FillPends(j, FillByte(j, x), n - 1);
    }
  }

  lemma FillStatePends(s: State)
    requires s.d.dynamic || s.h.polls == []
    ensures var r := FillState(s);
            && r.h.polls == s.h.polls && r.h.timedOut == s.h.timedOut && r.h.ier == s.h.ier
            && s.h.isr <= r.h.isr <= s.h.isr + {TxEmpty} && (s.d.dynamic ==> r.h.isr == s.h.isr)
  {
    FillPends(JobOf(s.d), TxView(s), Min(TxFifoSpace(s.h), TxMsg(s.d).len - s.d.txPos));
  }

  lemma SendHwPends(h: Hw, m: Msg, last: bool)
    requires Pend(h) == {}
    ensures var r := SendDynamicHw(h, m, last);
            Pend(r) == {} && r.polls == h.polls && r.timedOut == h.timedOut && TxEmpty in r.ier
  {
    ClearedIsNotPending(WriteDtr(h, 0), {TxEmpty, TxError, Bnb});
    ClearedIsNotPending(WriteDtr(h, 0), {TxEmpty, TxError, Bnb, TxHalf});
    var word := OrBit(AddrByte(m), 256);
    var w := WriteDtr(h, if last && m.len == 0 then OrBit(word, 512) else word);
    var mask := {TxEmpty, TxError, Bnb} + (if !last || m.len != 0 then {TxHalf} else {});
    ClearedIsNotPending(w, mask);
  }

  lemma SendEndPends(h: Hw, wasMaster: bool)
    requires Pend(h) <= {TxEmpty}
    ensures var r := SendStandardEndHw(h, wasMaster);
            Pend(r) == {} && r.polls == h.polls && r.timedOut == h.timedOut && TxEmpty in r.ier
  {
    ClearedIsNotPending(if wasMaster then h else h.(cr := h.cr + {Msms, DirTx}),
                        {TxEmpty, TxError, Bnb});
  }

  lemma SendPends(s: State)
    requires Pend(s.h) == {} && (s.d.dynamic || s.h.polls == [])
    ensures var r := StartSend(s);
            && Pend(r.h) == {} && r.h.polls == s.h.polls && r.h.timedOut == s.h.timedOut
            && TxEmpty in r.h.ier
  {
    hide FillState, SendDynamicHw, SendStandardHw, SendStandardEndHw, Poll, PollOk;
    var m, last := TxMsg(s.d), s.d.nmsgs == 1;
    SendHwPends(s.h, m, last);
    if s.d.dynamic {
      FillStatePends(State(s.d, SendDynamicHw(s.h, m, last)));
    } else {
      var h := AfterWait(s);
      WaitPends(s.h);
      SendHwFrame(h, m, last, false);
      var t := State(s.d, SendStandardHw(h, m));
      FillStatePends(t);
      SendEndPends(FillState(t).h, Msms in h.cr);
    }
  }

  lemma WaitPends(h: Hw)
    requires h.polls == [] && Pend(h) == {}
    ensures PollOk(h)
    ensures var r := Poll(h);
            r.polls == [] && r.timedOut == h.timedOut && r.ier == h.ier && Pend(r) <= {TxEmpty}
  {
  }

  lemma StartPends(s: State)
    requires s.d.tx.Some? && Pend(s.h) == {} && (s.d.dynamic || s.h.polls == [])
    ensures var r := StartNext(s);
            && Pend(r.h) == {} && r.h.polls == s.h.polls && r.h.timedOut == s.h.timedOut
            && (!TxMsg(s.d).rd ==> TxEmpty in r.h.ier)
  {
    hide StartRecv, StartSend;
    if TxMsg(s.d).rd {
      RecvPends(Opened(s));
    } else {
      SendPends(Opened(s));
    }
  }

  /** From a boundary the next message is begun, and the transfer goes on; or it
      begins a read for which no byte ever comes. */
  lemma StartLively(s: State, r: State, i: nat, slaves: Slaves)
    requires Boundary(s, i) && !Astray(s.h) && (s.d.dynamic || s.h.polls == []) && Pend(s.h) == {}
    requires SilentWhenEmpty(s.d.sent, s.d.dynamic, s.h.chip.emptyRead) && ReadsAsk(s.d.sent, i)
    requires r.h == StartNext(s).h && r.d == StartNext(s).d.(warned := r.d.warned)
    requires StopInv(r)
    ensures if ReadsAsk(s.d.sent, i + 1) then Lively(r, slaves) else Dead(r)
    ensures r.d.tx == Some(i) && r.d.nmsgs == s.d.nmsgs && r.d.sent == s.d.sent
    ensures r.d.dynamic == s.d.dynamic && i < |s.d.sent|
  {
    hide StartNext, StopInv, Boundary, Armed, Writing, Running, Fresh;
    BoundaryTx(s, i);
    StartPends(s);
    StartStray(s);
    StartNextFrame(s);
    StartNextBegins(s, i);
    if s.d.sent[i].rd {
      FreshSpace(StartNext(s), i);
    }
  }

  lemma FreshSpace(s: State, i: nat)
    requires Fresh(s, i)
    ensures RxSpace(s.d) == s.d.sent[i].len && s.d.rx.Some? && |s.h.logs| == i + 1
    ensures s.h.logs[i].bytes == [] && s.h.rxFifo == []
    ensures s.d.sent[i].len == 0 ==> s.h.bus == Idle
  {
    hide History;
    assert s.h.logs[i].bytes == [];
  }

  // ----- A watermark interrupt -----

  lemma {:induction false} FeedKeepsInv(s: State, slave: Slave)
    requires StopInv(s)
    ensures StopInv(State(s.d, Feed(s.h, slave)))
    ensures var h := Feed(s.h, slave);
            h == s.h.(rxFifo := h.rxFifo, logs := h.logs, bus := h.bus, txLevel := h.txLevel)
    decreases Watermark(s.h) - |s.h.rxFifo|
  {
    hide Inv;
    if CanClock(s.h) {
      var b := slave.byte(|s.h.logs[|s.h.logs| - 1].bytes|);
      ClockKeepsInv(s, b);
      FeedKeepsInv(State(s.d, Clock(s.h, b)), slave);
    }
  }

  /** How much of the current message is missing. */
  function Missing(s: State): int {
    if s.d.rx.Some? then 1 + RxSpace(s.d)
    else if TxMsg(s.d).rd then 0 else TxSpace(s.d)
  }

  /** A round has brought the transfer further. */
  predicate Further(s: State, r: State) {
    && r.d.sent == s.d.sent && r.d.dynamic == s.d.dynamic && r.d.tx.Some?
    && (r.d.nmsgs == s.d.nmsgs - 1
        || (r.d.nmsgs == s.d.nmsgs && RxMsg(s.d).recvLen && !RxMsg(r.d).recvLen)
        || (r.d.nmsgs == s.d.nmsgs && RxMsg(s.d).recvLen == RxMsg(r.d).recvLen
            && Missing(r) < Missing(s)))
  }

  /** The outcome of a round that does not end the transfer. */
  predicate Onward(s: State, r: State, slaves: Slaves) {
    Further(s, r) && (Lively(r, slaves) || Dead(r))
  }

  /** The next round ends the current message, and goes on to the next if there is one. */
  predicate AboutToEnd(s: State, slaves: Slaves) {
    s.d.tx.Some?
    && if s.d.rx.Some? then
         var x := RxView(State(s.d, Feed(s.h, slaves(s.d.tx.value))));
         Left(ReadRx(x, s.d.dynamic, s.d.nmsgs == 1)) == 0
       else !TxMsg(s.d).rd && TxSpace(s.d) == 0
  }

  /** The conditions under which a bus round is looked at. */
  predicate Fair(t: State) {
    && StopInv(t) && !Astray(t.h) && (t.d.dynamic || t.h.polls == []) && t.d.tx.Some?
    && SilentWhenEmpty(t.d.sent, t.d.dynamic, t.h.chip.emptyRead)
    && ReadsAsk(t.d.sent, t.d.tx.value + 1)
  }

  lemma CalmFromLively(s: State, slaves: Slaves)
    requires Lively(s, slaves) && s.d.rx.Some?
    ensures var i := s.d.tx.value; CalmRead(s, i, slaves(i)) && s.d.rx == Some(i)
    ensures RxSpace(s.d) > 0 && s.d.nmsgs >= 1
  {
  }

  /** The round ends the read of message i, with others to follow: the next begins. */
  lemma ReadRoundAdvances(t: State, i: nat, slaves: Slaves)
    requires Fair(t) && CalmRead(t, i, slaves(i)) && |t.h.rxFifo| == Watermark(t.h)
    requires Pend(t.h) == {RxFull} && t.d.nmsgs > 1
    requires Left(ReadRx(RxView(t), t.d.dynamic, t.d.nmsgs == 1)) == 0
    ensures Onward(t, Process(t, true), slaves) && Process(t, true).d.nmsgs == t.d.nmsgs - 1
  {
    hide Process, ReadRx, StopInv, Boundary, StartNext, Lively, Running, RxPart, Receiving, Dead,
         SilentWhenEmpty, ReadsAsk;
    ProcessStops(t, true);
    OnlyReadBranch(t, true);
    ReceivingRx(t, i);
    ReadEnds(t, i);
    var p := RxPart(t, {RxFull}, {});
    ReadPartEnds(t);
    var s1 := State(p.s.d, WriteIisr(p.s.h, p.clr));
    RxFullCleared(t, p);
    SameBoundary(p.s, s1, i + 1);
    StartLively(s1, Process(t, true), i + 1, slaves);
  }

  lemma ReadPartEnds(t: State)
    requires t.d.rx.Some? && t.d.tx.Some? && t.d.nmsgs > 1
    requires Left(ReadRx(RxView(t), t.d.dynamic, t.d.nmsgs == 1)) == 0
    ensures var p := RxPart(t, {RxFull}, {});
            var s1 := WithRx(t, TrimLen(ReadRx(RxView(t), t.d.dynamic, t.d.nmsgs == 1)));
            && p.s == State(Advance(s1.d.(rx := None)), s1.h) && p.more && p.wake.None?
            && p.s.d.sent == t.d.sent && p.s.d.dynamic == t.d.dynamic
            && p.s.d.nmsgs == t.d.nmsgs - 1
  {
    hide ReadRx, TrimLen;
  }

  lemma RxFullCleared(t: State, p: Pass)
    requires p == RxPart(t, {RxFull}, {}) && Pend(t.h) == {RxFull}
    ensures p.wake.None?
    ensures var h := WriteIisr(p.s.h, p.clr);
            && Pend(h) == {} && h.polls == t.h.polls && h.timedOut == t.h.timedOut
            && h.stray == t.h.stray && h.chip == t.h.chip
            && h.ier == t.h.ier && h.logs == t.h.logs
            && h == p.s.h.(isr := h.isr)
  {
    hide RxPart, Pend, WriteIisr;
    RxPartFrame(t, {RxFull}, {});
    assert RxFull in t.h.isr by { PendingIsLatched(t.h, RxFull); }
    ServedIsCleared(t.h, p.s.h, p.clr);
  }

  lemma PendingIsLatched(h: Hw, q: Irq)
    requires q in Pend(h)
    ensures q in h.isr
  {
  }

  lemma RxPartFrame(t: State, pend: set<Irq>, clr: set<Irq>)
    ensures var p := RxPart(t, pend, clr);
            && p.wake.None?
            && p.s.h == t.h.(rxFifo := p.s.h.rxFifo, cr := p.s.h.cr, rfd := p.s.h.rfd,
                             underflow := p.s.h.underflow, drains := p.s.h.drains)
            && (t.h.drains == [] ==> p.s.h.drains == [])
            && p.clr <= clr + {RxFull} + t.h.isr && (RxFull in pend ==> RxFull in p.clr)
  {
    hide ReadRx, TrimLen, Left, DrainRx;
    DrainFrame(t.h);
  }

  lemma ServedIsCleared(g: Hw, h: Hw, clr: set<Irq>)
    requires Pend(g) == {RxFull} && h.isr == g.isr && h.ier == g.ier
    requires clr <= {} + {RxFull} + g.isr && RxFull in clr && RxFull in g.isr
    ensures var w := WriteIisr(h, clr); Pend(w) == {} && w == h.(isr := w.isr)
  {
    assert clr <= g.isr;
    assert forall q :: q in WriteIisr(h, clr).isr ==> q in g.isr && q != RxFull;
  }

  /** Any other outcome of the round leaves the same message current. */
  lemma ReadRoundStays(t: State, i: nat, slaves: Slaves)
    requires Fair(t) && CalmRead(t, i, slaves(i)) && |t.h.rxFifo| == Watermark(t.h)
    requires Pend(t.h) == {RxFull} && RxSpace(t.d) > 0
    requires Left(ReadRx(RxView(t), t.d.dynamic, t.d.nmsgs == 1)) != 0 || t.d.nmsgs == 1
    ensures var r := Process(t, true); Onward(t, r, slaves) && r.d.nmsgs == t.d.nmsgs
  {
    hide Process, ReadRx, StopInv, StartNext, Running, Receiving, Received, Armed, Cursor,
         ReadDone, ReadRefused, RxPart, Dead, SilentWhenEmpty, ReadsAsk;
    ProcessStops(t, true);
    OnlyReadBranch(t, true);
    RipeProgress(t, i, slaves(i), true);
    var p := RxPart(t, {RxFull}, {});
    RxFullCleared(t, p);
    CalmFields(t, i, slaves(i));
    StaysFields(t, i, p);
    if Left(ReadRx(RxView(t), t.d.dynamic, t.d.nmsgs == 1)) != 0 {
      GoesOnReading(t, i, slaves(i), true);
      CalmFields(Process(t, true), i, slaves(i));
    } else {
      FinishesReading(t, i, slaves(i), true);
      ReceivedFields(Process(t, true), i);
    }
  }

  lemma ReceivedFields(r: State, i: nat)
    requires Received(r, i)
    ensures r.d.tx == Some(i) && r.d.rx.None? && TxMsg(r.d).rd && r.d.nmsgs == 1
  {
  }

  lemma CalmFields(t: State, i: nat, slave: Slave)
    requires CalmRead(t, i, slave)
    ensures t.d.tx == t.d.rx == Some(i) && i < |t.d.sent| && i < |t.h.logs| && t.d.sent[i].rd
    ensures SentBy(t.h.logs[i].bytes, slave) && TxMsg(t.d) == RxMsg(t.d)
    ensures TxMsg(t.d).rd
  {
  }

  lemma StaysFields(t: State, i: nat, p: Pass)
    requires p == RxPart(t, {RxFull}, {}) && t.d.rx.Some? && t.d.tx == Some(i)
    requires Left(ReadRx(RxView(t), t.d.dynamic, t.d.nmsgs == 1)) != 0 || t.d.nmsgs == 1
    ensures !p.more && p.s.d.tx == t.d.tx && p.s.d.nmsgs == t.d.nmsgs && p.s.d.sent == t.d.sent
    ensures p.s.d.dynamic == t.d.dynamic && p.s.h.polls == t.h.polls
  {
    hide ReadRx, TrimLen;
  }

  lemma ReadRound(s: State, slaves: Slaves)
    requires Lively(s, slaves) && s.d.rx.Some?
    ensures Onward(s, BusRound(s, slaves), slaves)
    ensures !AboutToEnd(s, slaves) ==> BusRound(s, slaves).d.nmsgs == s.d.nmsgs
    ensures AboutToEnd(s, slaves) && s.d.nmsgs > 1 ==> BusRound(s, slaves).d.nmsgs == s.d.nmsgs - 1
  {
    hide Process, ReadRx, StopInv, Running, Receiving, Cursor, Armed, ReadDone, ReadRefused, Dead,
         SilentWhenEmpty, ReadsAsk, Feed;
    var i := s.d.tx.value;
    CalmFromLively(s, slaves);
    RoundIsFull(s, i, slaves(i), true);
    FeedReachesWatermark(s, i, slaves(i));
    FeedKeepsInv(s, slaves(i));
    var u := State(s.d, Feed(s.h, slaves(i)));
    var t := State(s.d, Latch(u.h, {RxFull}));
    LatchStops(u);
    CalmAgain(u, t, i, slaves(i));
    if Left(ReadRx(RxView(t), t.d.dynamic, t.d.nmsgs == 1)) == 0 && t.d.nmsgs > 1 {
      ReadRoundAdvances(t, i, slaves);
    } else {
      ReadRoundStays(t, i, slaves);
    }
    SameMissing(s, t, Process(t, true));
  }

  lemma SameMissing(s: State, t: State, r: State)
    requires t.d == s.d
    ensures Further(t, r) <==> Further(s, r)
  {
  }

  lemma LatchStops(u: State)
    requires StopInv(u)
    ensures StopInv(State(u.d, Latch(u.h, {RxFull})))
  {
    hide Inv;
    LatchKeepsInv(u, {RxFull});
  }

  lemma CalmAgain(u: State, t: State, i: nat, slave: Slave)
    requires CalmRead(u, i, slave) && |u.h.rxFifo| == Watermark(u.h) && Pend(u.h) == {}
    requires t == State(u.d, Latch(u.h, {RxFull}))
    ensures CalmRead(t, i, slave) && Pend(t.h) == {RxFull} && |t.h.rxFifo| == Watermark(t.h)
    ensures t.h == u.h.(isr := u.h.isr + {RxFull})
  {
    hide Receiving;
    assert RxFull in u.h.ier by { CalmEnables(u, i, slave); }
    StillReceiving(u, t.h, i);
  }

  lemma CalmEnables(u: State, i: nat, slave: Slave)
    requires CalmRead(u, i, slave)
    ensures RxFull in u.h.ier && u.d.rx.Some?
  {
    hide Reading, History;
  }

  // ----- A TX FIFO that has run empty -----

  lemma OnlySendBranch(t: State)
    requires Pend(t.h) == {TxEmpty}
    ensures Process(t, true) == Finish(TxPart(Pass(t, {}, false, false, None), {TxEmpty}), false)
  {
    hide Finish, TxPart, ErrorPass, ReadRx;
  }

  lemma EmptyLatched(s: State, slaves: Slaves)
    requires Lively(s, slaves) && s.d.rx.None? && !s.d.sent[s.d.tx.value].rd
    ensures var t := State(s.d, Latch(Drain(s.h, 0), {TxEmpty}));
            && Fair(t) && Pend(t.h) == {TxEmpty} && TxEmpty in t.h.isr
            && Writing(t, s.d.tx.value)
            && t.h == s.h.(isr := t.h.isr, txLevel := 0)
  {
    hide Encode, WordsUpTo;
    DrainKeepsInv(s, 0);
    LatchKeepsInv(State(s.d, Drain(s.h, 0)), {TxEmpty});
  }

  lemma SendMore(t: State, i: nat, slaves: Slaves)
    requires Fair(t) && Writing(t, i) && Pend(t.h) == {TxEmpty} && t.h.txLevel == 0
    requires i < |t.h.logs| && TxEmpty in t.h.ier && TxSpace(t.d) != 0
    ensures Onward(t, Process(t, true), slaves) && Process(t, true).d.nmsgs == t.d.nmsgs
  {
    hide Process, StopInv, WordsUpTo, FillState, History, TxPart, Dead, SilentWhenEmpty, ReadsAsk;
    ProcessStops(t, true);
    OnlySendBranch(t);
    FillStatePends(t);
    FillKeepsWriting(t, i);
    FillFrame(t);
    WritingFields(t, i);
    SameMessage(t, i);
    var p := TxPart(Pass(t, {}, false, false, None), {TxEmpty});
    FillPass(t, p);
    TxEmptyCleared(p.s.h, t.h);
    var r := Process(t, true);
    assert r.d == FillState(t).d.(warned := r.d.warned);
  }

  lemma FillPass(t: State, p: Pass)
    requires p == TxPart(Pass(t, {}, false, false, None), {TxEmpty})
    requires t.d.tx.Some? && TxSpace(t.d) != 0
    ensures p == Pass(FillState(t), {TxEmpty}, false, false, None)
  {
    hide FillState;
    assert {} + {TxEmpty} * {TxEmpty, TxHalf} == {TxEmpty};
  }

  lemma TxEmptyCleared(h: Hw, g: Hw)
    requires Pend(g) == {TxEmpty} && g.isr <= h.isr <= g.isr + {TxEmpty} && h.ier == g.ier
    ensures var w := WriteIisr(h, {TxEmpty}); Pend(w) == {} && w == h.(isr := w.isr)
  {
  }

  lemma SameMessage(t: State, i: nat)
    requires Writing(t, i)
    ensures i < |t.d.sent| && t.d.tx == Some(i) && TxMsg(t.d) == t.d.sent[i]
    ensures !t.d.sent[i].rd && t.d.rx.None?
  {
  }

  lemma SendNext(t: State, i: nat, slaves: Slaves)
    requires Fair(t) && Writing(t, i) && Pend(t.h) == {TxEmpty} && t.h.txLevel == 0
    requires t.d.nmsgs > 1 && TxSpace(t.d) == 0
    ensures Onward(t, Process(t, true), slaves) && Process(t, true).d.nmsgs == t.d.nmsgs - 1
  {
    hide Process, StopInv, StartNext, Boundary, Lively, WordsUpTo, FillState, Dead, SilentWhenEmpty,
         ReadsAsk;
    ProcessStops(t, true);
    OnlySendBranch(t);
    SentAll(t, i);
    WriteEnds(t, i);
    TxEmptyCleared(t.h, t.h);
    var p := TxPart(Pass(t, {}, false, false, None), {TxEmpty});
    var s1 := State(Advance(t.d), WriteIisr(t.h, {TxEmpty}));
    assert p == Pass(State(Advance(t.d), t.h), {TxEmpty}, true, false, None);
    SameBoundary(p.s, s1, i + 1);
    StartLively(s1, Process(t, true), i + 1, slaves);
  }

  lemma SentAll(t: State, i: nat)
    requires Writing(t, i) && TxSpace(t.d) == 0
    ensures t.d.txPos == t.d.sent[i].len && t.d.tx == Some(i)
  {
  }

  lemma WriteRound(s: State, slaves: Slaves)
    requires Lively(s, slaves) && s.d.rx.None? && !OnlyStopLeft(s.d)
    ensures Onward(s, BusRound(s, slaves), slaves)
    ensures !AboutToEnd(s, slaves) ==> BusRound(s, slaves).d.nmsgs == s.d.nmsgs
    ensures AboutToEnd(s, slaves) && s.d.nmsgs > 1 ==> BusRound(s, slaves).d.nmsgs == s.d.nmsgs - 1
  {
    hide Process, StopInv, Writing, Dead, SilentWhenEmpty, ReadsAsk;
    var i := s.d.tx.value;
    NotReading(s, slaves);
    EmptyLatched(s, slaves);
    var t := State(s.d, Latch(Drain(s.h, 0), {TxEmpty}));
    assert TxSpace(t.d) == TxSpace(s.d) && TxMsg(t.d) == TxMsg(s.d);
    if TxSpace(s.d) != 0 {
      SendMore(t, i, slaves);
    } else {
      SendNext(t, i, slaves);
    }
    SameMissing(s, t, Process(t, true));
  }

  lemma NotReading(s: State, slaves: Slaves)
    requires Lively(s, slaves) && s.d.rx.None? && !OnlyStopLeft(s.d)
    ensures !s.d.sent[s.d.tx.value].rd && !TxMsg(s.d).rd && HasLog(s)
    ensures TxSpace(s.d) == 0 ==> s.d.nmsgs > 1
  {
  }

  predicate HasLog(s: State) {
    s.d.tx.Some? && s.d.tx.value < |s.h.logs|
  }

  // ----- The end -----

  /** What xiic_xfer returns: EIO exactly for a last block read whose count is too big. */
  predicate Outcome(r: State, sent: seq<Msg>, slaves: Slaves)
    requires sent != []
  {
    var i := |sent| - 1;
    if sent[i].recvLen && slaves(i).byte(0) > 32 then XferRet(r) == EIo
    else XferRet(r) == Ok(|sent|) && AllDone(r)
  }

  lemma StopRound(s: State, slaves: Slaves)
    requires Lively(s, slaves) && OnlyStopLeft(s.d)
    ensures s.d.sent != []
    ensures if CanStop(s.d.sent, s.d.dynamic)
            then Outcome(BusRound(s, slaves), s.d.sent, slaves)
            else Stuck(s, slaves)
  {
    hide Process, Running, Armed, Cursor, AllDone, Clean;
    var i := s.d.tx.value;
    EndFields(s, slaves);
    if StopAsked(s) {
      var h := Latch(s.h, {Bnb});
      assert Pend(h) == {Bnb};
      OnlyBnb(State(s.d, h), true);
      EndKeeps(State(s.d, h));
      if s.d.blockRead || TxSpace(s.d) == 0 {
        LastMessageDone(s, i);
        SameDone(s, FreeBus(s, true));
        CountInRange(s, slaves);
      } else {
        CountTooBig(s, slaves);
      }
    }
  }

  lemma EndFields(s: State, slaves: Slaves)
    requires Lively(s, slaves) && OnlyStopLeft(s.d)
    ensures Running(s, s.d.tx.value) && Bnb in s.h.ier && s.d.completed == 0
    ensures s.d.tx.value == |s.d.sent| - 1 && (StopAsked(s) <==> CanStop(s.d.sent, s.d.dynamic))
  {
    hide Reading, History;
    LastMessage(s, s.d.tx.value);
  }

  /** The message is as it was submitted, but for the length of a read. */
  lemma LastMessage(s: State, i: nat)
    requires Running(s, i)
    ensures i < |s.d.sent| && s.d.tx == Some(i) && TxMsg(s.d).rd == s.d.sent[i].rd
    ensures !s.d.sent[i].rd ==> TxMsg(s.d) == s.d.sent[i]
  {
    hide EncodeUpTo, WordsUpTo;
  }

  lemma EndKeeps(t: State)
    requires Pend(t.h) == {Bnb}
    ensures var r := Process(t, true);
            && r.d.sent == t.d.sent && r.d.dynamic == t.d.dynamic && r.d.msgs == t.d.msgs
            && r.h.logs == t.h.logs && r.h.dtr == t.h.dtr
  {
    hide Process, BnbPart, Finish;
    OnlyBnbBranch(t, true);
    var p := Pass(t, {}, false, false, None);
    BnbKeepsData(p, {Bnb});
    EndFinishes(BnbPart(p, {Bnb}));
  }

  lemma EndFinishes(p: Pass)
    requires !p.more
    ensures var r := Finish(p, false);
            && r.d.sent == p.s.d.sent && r.d.dynamic == p.s.d.dynamic && r.d.msgs == p.s.d.msgs
            && r.h.logs == p.s.h.logs && r.h.dtr == p.s.h.dtr
  {
  }

  lemma BnbKeepsData(p: Pass, pend: set<Irq>)
    ensures var q := BnbPart(p, pend);
            && q.s.d.sent == p.s.d.sent && q.s.d.dynamic == p.s.d.dynamic && q.s.d.msgs == p.s.d.msgs
            && q.s.h.logs == p.s.h.logs && q.s.h.dtr == p.s.h.dtr && q.more == p.more
  {
  }

  lemma CountInRange(s: State, slaves: Slaves)
    requires Lively(s, slaves) && OnlyStopLeft(s.d) && (s.d.blockRead || TxSpace(s.d) == 0)
    ensures var i := s.d.tx.value; !(s.d.sent[i].recvLen && slaves(i).byte(0) > 32)
  {
    hide Encode, ReadsAsk, SilentWhenEmpty;
    assert ValidAt(s.d.sent, s.d.dynamic, s.d.tx.value);
  }

  lemma CountTooBig(s: State, slaves: Slaves)
    requires Lively(s, slaves) && OnlyStopLeft(s.d) && !(s.d.blockRead || TxSpace(s.d) == 0)
    ensures var i := s.d.tx.value; s.d.sent[i].recvLen && slaves(i).byte(0) > 32
  {
    hide Encode, ReadsAsk, SilentWhenEmpty;
    assert ValidAt(s.d.sent, s.d.dynamic, s.d.tx.value);
  }

  // ----- Whole transfers -----

  lemma MissingIsNat(s: State, slaves: Slaves)
    requires Lively(s, slaves)
    ensures Missing(s) >= 0
  {
    hide ReadsAsk, SilentWhenEmpty;
    if s.d.rx.None? && !s.d.sent[s.d.tx.value].rd {
      WritingFields(s, s.d.tx.value);
    }
  }

  /** A list that a cooperating bus brings to an end. */
  predicate Endable(sent: seq<Msg>, dynamic: bool) {
    NonEmptyReads(sent) && CanStop(sent, dynamic)
  }

  lemma LivelyAsks(s: State, slaves: Slaves)
    requires Lively(s, slaves) && OnlyStopLeft(s.d)
    ensures NonEmptyReads(s.d.sent)
  {
    hide Data;
  }

  lemma DeadAsks(s: State)
    requires Dead(s)
    ensures !NonEmptyReads(s.d.sent)
  {
  }

  lemma NextRound(s: State, slaves: Slaves)
    requires Lively(s, slaves) && !(s.d.rx.None? && OnlyStopLeft(s.d))
    ensures Onward(s, BusRound(s, slaves), slaves)
    ensures !AboutToEnd(s, slaves) ==> BusRound(s, slaves).d.nmsgs == s.d.nmsgs
    ensures AboutToEnd(s, slaves) && s.d.nmsgs > 1 ==> BusRound(s, slaves).d.nmsgs == s.d.nmsgs - 1
  {
    hide Lively, BusRound, Onward, AboutToEnd;
    if s.d.rx.Some? { ReadRound(s, slaves); } else { WriteRound(s, slaves); }
  }

  /** Every transfer under way comes to its end, or to a state that never changes. */
  lemma {:induction false} RunsToEnd(s: State, slaves: Slaves, bound: nat) returns (n: nat)
    requires Lively(s, slaves) && bound == Missing(s)
    ensures s.d.sent != []
    ensures var r := BusRounds(s, slaves, n);
            if Endable(s.d.sent, s.d.dynamic) then Outcome(r, s.d.sent, slaves) else Stuck(r, slaves)
    decreases s.d.nmsgs, RxMsg(s.d).recvLen, bound
  {
    hide BusRound, Lively, Outcome, Missing, Stuck, CanStop, NonEmptyReads, Dead;
    RoundsUnfold(s, slaves, 0);
    if s.d.rx.None? && OnlyStopLeft(s.d) {
      StopRound(s, slaves);
      LivelyAsks(s, slaves);
      n := if CanStop(s.d.sent, s.d.dynamic) then 1 else 0;
      RoundsUnfold(BusRound(s, slaves), slaves, 0);
    } else {
      NextRound(s, slaves);
      var r := BusRound(s, slaves);
      var k := 0;
      if Lively(r, slaves) {
        MissingIsNat(r, slaves);
        k := RunsToEnd(r, slaves, Missing(r));
      } else {
        DeadIsStuck(r, slaves);
        DeadAsks(r);
        RoundsUnfold(r, slaves, 0);
        DeadHasSent(r);
      }
      n := k + 1;
      RoundsUnfold(s, slaves, k);
    }
  }

  lemma DeadHasSent(s: State)
    requires Dead(s)
    ensures s.d.sent != []
  {
  }

  lemma RoundsUnfold(s: State, slaves: Slaves, n: nat)
    ensures BusRounds(s, slaves, n + 1) == BusRounds(BusRound(s, slaves), slaves, n)
    ensures BusRounds(s, slaves, 0) == s
  {
    hide BusRound;
  }

  /** A driver that accepts the list, with nothing pending on its controller. */
  predicate CanStart(s: State, msgs: seq<Msg>, c: Config) {
    && msgs != [] && StartXferRet(s, c, (false, false)).Ok?
    && Pend(s.h) == {} && (UsesDynamic(msgs, c.readBroken) || s.h.polls == [])
    && ValidTransfer(msgs, UsesDynamic(msgs, c.readBroken))
    && SilentWhenEmpty(msgs, UsesDynamic(msgs, c.readBroken), s.h.chip.emptyRead)
  }

  lemma StartedIsLively(s: State, msgs: seq<Msg>, c: Config, slaves: Slaves)
    requires CanStart(s, msgs, c) && !s.d.blockRead
    ensures var r := StartXfer(s, msgs, c, (false, false));
            && (if ReadsAsk(msgs, 1) then Lively(r, slaves) else Dead(r))
            && r.d.sent == msgs && r.d.nmsgs == |msgs| && r.d.dynamic == UsesDynamic(msgs, c.readBroken)
            && Cursor(r)
  {
    hide StartNext, ReinitHw, Lively, StopInv, Boundary, ClearHistory, Submit, Dead, SilentWhenEmpty,
         ReadsAsk, UsesDynamic, Cursor;
    StartXferStops(s, msgs, c, (false, false));
    StartXferSetsCursor(s, msgs, c, (false, false));
    SubmittedIsBoundary(s.d, s.h, msgs, c);
    SubmitFields(s.d, msgs, c);
    ClearFields(s.h, c.clkOk);
    ReinitPends(ClearHistory(s.h));
    var t := State(Submit(s.d, msgs, c.readBroken), ReinitHw(ClearHistory(s.h), c.clkOk));
    StartIs(s, msgs, c);
    NoneYet(msgs);
    StartLively(t, StartNext(t), 0, slaves);
  }

  lemma NoneYet(msgs: seq<Msg>)
    ensures ReadsAsk(msgs, 0)
  {
  }

  /** Every transfer that starts with nothing pending ends, when the bus cooperates, with
      all messages done and their number returned; or with EIO, exactly when its last
      message is a block read whose count is above 32. Reads must ask for a byte, and a
      standard-mode transfer must not end in a write without data. */
  lemma EveryTransferEnds(s: State, msgs: seq<Msg>, c: Config, slaves: Slaves) returns (n: nat)
    requires CanStart(s, msgs, c) && !s.d.blockRead
    requires Endable(msgs, UsesDynamic(msgs, c.readBroken))
    ensures Outcome(BusRounds(StartXfer(s, msgs, c, (false, false)), slaves, n), msgs, slaves)
  {
    hide StartXfer, Outcome, Lively, BusRounds, Dead, UsesDynamic, CanStop, SilentWhenEmpty;
    StartedIsLively(s, msgs, c, slaves);
    var s1 := StartXfer(s, msgs, c, (false, false));
    MissingIsNat(s1, slaves);
    n := RunsToEnd(s1, slaves, Missing(s1));
  }

  // ----- The lists that never end -----

  lemma BusRoundKeepsCursor(s: State, slaves: Slaves)
    requires Cursor(s)
    ensures Cursor(BusRound(s, slaves))
  {
    hide Process, Cursor, Feed;
    if s.d.tx.Some? {
      var slave := slaves(s.d.tx.value);
      var h := Feed(s.h, slave);
      FeedKeepsCursor(s, slave);
      ProcessKeepsCursor(State(s.d, Latch(h, RoundBits(h, slave.nack))), true);
      SameEnables(s, State(s.d, Latch(Drain(s.h, 0), {TxEmpty})));
      SameEnables(s, State(s.d, Latch(s.h, {Bnb})));
      ProcessKeepsCursor(State(s.d, Latch(Drain(s.h, 0), {TxEmpty})), true);
      ProcessKeepsCursor(State(s.d, Latch(s.h, {Bnb})), true);
    }
  }

  lemma SameEnables(s: State, t: State)
    requires Cursor(s) && t.d == s.d && t.h.ier == s.h.ier
    ensures Cursor(t)
  {
  }

  lemma {:induction false} BusRoundsKeepCursor(s: State, slaves: Slaves, n: nat)
    requires Cursor(s)
    ensures Cursor(BusRounds(s, slaves, n))
    decreases n
  {
    hide Cursor, BusRound;
    if n > 0 {
      BusRoundKeepsCursor(s, slaves);
      BusRoundsKeepCursor(BusRound(s, slaves), slaves, n - 1);
    }
  }

  lemma {:induction false} RoundsAdd(s: State, slaves: Slaves, a: nat, b: nat)
    ensures BusRounds(s, slaves, a + b) == BusRounds(BusRounds(s, slaves, a), slaves, b)
    decreases a
  {
    hide BusRound;
    if a > 0 {
      RoundsAdd(BusRound(s, slaves), slaves, a - 1, b);
    }
  }

  /** Stuck states stay, and so do ended transfers. */
  lemma {:induction false} RoundsStay(s: State, slaves: Slaves, n: nat)
    requires BusRound(s, slaves) == s
    ensures BusRounds(s, slaves, n) == s
    decreases n
  {
    hide BusRound;
    if n > 0 {
      RoundsStay(s, slaves, n - 1);
    }
  }

  lemma EndedIsIdle(r: State, sent: seq<Msg>, slaves: Slaves)
    requires Cursor(r) && sent != [] && Outcome(r, sent, slaves)
    ensures r.d.tx.None?
  {
    hide AllDone;
  }

  lemma IdleRound(r: State, slaves: Slaves)
    requires r.d.tx.None?
    ensures BusRound(r, slaves) == r
  {
    hide Process;
  }

  lemma StuckNeverEnds(s: State, sent: seq<Msg>, slaves: Slaves, n: nat, m: nat)
    requires Cursor(s) && sent != [] && Stuck(BusRounds(s, slaves, n), slaves)
    ensures !Outcome(BusRounds(s, slaves, m), sent, slaves)
  {
    hide Outcome, Cursor, BusRounds, BusRound;
    var r := BusRounds(s, slaves, m);
    BusRoundsKeepCursor(s, slaves, m);
    if Outcome(r, sent, slaves) {
      EndedIsIdle(r, sent, slaves);
      if m <= n {
        RoundsAdd(s, slaves, m, n - m);
        IdleRound(r, slaves);
        RoundsStay(r, slaves, n - m);
      } else {
        RoundsAdd(s, slaves, n, m - n);
        RoundsStay(BusRounds(s, slaves, n), slaves, m - n);
      }
    }
  }

  /** And those are the only transfers that end on a cooperating bus. */
  lemma TransferEndsIff(s: State, msgs: seq<Msg>, c: Config, slaves: Slaves)
    requires CanStart(s, msgs, c) && !s.d.blockRead
    ensures (exists n: nat :: Outcome(BusRounds(StartXfer(s, msgs, c, (false, false)), slaves, n),
                                      msgs, slaves))
       <==> Endable(msgs, UsesDynamic(msgs, c.readBroken))
  {
    hide StartXfer, Outcome, Lively, BusRounds, Dead, UsesDynamic, CanStop, SilentWhenEmpty, Stuck,
         Cursor;
    if Endable(msgs, UsesDynamic(msgs, c.readBroken)) {
      var n := EveryTransferEnds(s, msgs, c, slaves);
    } else {
      var s1 := StartXfer(s, msgs, c, (false, false));
      StartedIsLively(s, msgs, c, slaves);
      var n := 0;
      if Lively(s1, slaves) {
        MissingIsNat(s1, slaves);
        n := RunsToEnd(s1, slaves, Missing(s1));
      } else {
        DeadIsStuck(s1, slaves);
        RoundsUnfold(s1, slaves, 0);
      }
      forall m: nat
        ensures !Outcome(BusRounds(s1, slaves, m), msgs, slaves)
      {
        StuckNeverEnds(s1, msgs, slaves, n, m);
      }
    }
  }

  lemma StartIs(s: State, msgs: seq<Msg>, c: Config)
    requires msgs != [] && StartXferRet(s, c, (false, false)).Ok?
    ensures StartXfer(s, msgs, c, (false, false))
         == StartNext(State(Submit(s.d, msgs, c.readBroken), ReinitHw(ClearHistory(s.h), c.clkOk)))
  {
    hide StartNext, ReinitHw, Submit;
  }

  lemma SubmitFields(d: Drv, msgs: seq<Msg>, c: Config)
    ensures var e := Submit(d, msgs, c.readBroken);
            e.sent == msgs && e.dynamic == UsesDynamic(msgs, c.readBroken) && e.nmsgs == |msgs|
  {
  }

  lemma ClearFields(h: Hw, clkOk: bool)
    ensures var g := ClearHistory(h); Pend(g) == Pend(h) && g.polls == h.polls && g.isr == h.isr
    ensures var g := ReinitHw(ClearHistory(h), clkOk);
            !Astray(g) && g.chip == h.chip
  {
  }
}
