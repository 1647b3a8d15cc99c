/** Whole transfers. The invariant that ties message buffers, bytes on the bus and
    words written to DTR together, in every state that a run of byte arrivals,
    interrupt bits and handler calls can reach; and what a completion that
    reports success therefore means. */
module XiicTransfer {
  import opened Wrappers
  import opened XiicDevice
  import opened XiicSpec
  import opened XiicEncode
  import opened XiicReading
  import opened XiicCursor

  // ----- The transfers considered -----

  /** A block read comes last. */
  predicate ValidTransfer(msgs: seq<Msg>, dynamic: bool) {
    && msgs != []
    && (forall i :: 0 <= i < |msgs| ==> ValidAt(msgs, dynamic, i))
  }

  predicate ValidAt(msgs: seq<Msg>, dynamic: bool, i: nat)
    requires i < |msgs|
  {
    && ValidMsg(msgs[i])
    && (msgs[i].recvLen ==> i == |msgs| - 1 && !dynamic)
    && (msgs[i].rd && dynamic ==> msgs[i].len <= 255)
  }

  /** A message that is over: a read is in its buffer, a write is as it was. */
  predicate MsgDone(o: Msg, m: Msg, log: ReadLog) {
    if o.rd then ReadDone(o, m, log) else m == o
  }

  /** What success must mean: every message in order, all words out, all reads filled. */
  predicate AllDone(s: State) {
    && |s.h.logs| == |s.d.msgs| == |s.d.sent|
    && (forall j :: 0 <= j < |s.d.sent| ==> MsgDone(s.d.sent[j], s.d.msgs[j], s.h.logs[j]))
    && s.h.dtr == Encode(s.d.sent, s.d.dynamic)
  }

  // ----- The invariant -----

  /** A wait has timed out, or bytes are clocked for a read that asks for none. */
  predicate Astray(h: Hw) {
    h.timedOut || h.stray
  }

  /** Messages before i are done, those after it untouched. */
  predicate History(sent: seq<Msg>, msgs: seq<Msg>, logs: seq<ReadLog>, dynamic: bool, i: nat) {
    && |msgs| == |sent| && i < |sent| && i <= |logs|
    && ValidTransfer(sent, dynamic)
    && (forall j :: 0 <= j < i ==> MsgDone(sent[j], msgs[j], logs[j]))
    && (forall j :: i < j < |sent| ==> msgs[j] == sent[j])
  }

  /** Message i is current. */
  predicate Around(s: State, i: nat) {
    && History(s.d.sent, s.d.msgs, s.h.logs, s.d.dynamic, i)
    && s.d.tx == Some(i) && s.d.nmsgs == |s.d.sent| - i
    && !s.h.underflow && !s.h.overflow && !s.d.overrun
  }

  predicate Quiet(h: Hw) {
    h.rxFifo == [] && h.bus == Idle && NoAck !in h.cr
  }

  /** Message i is about to be started. */
  predicate Boundary(s: State, i: nat) {
    && Around(s, i)
    && |s.h.logs| == i
    && s.d.rx.None? && s.d.msgs[i] == s.d.sent[i] && !s.d.blockRead
    && Quiet(s.h) && s.h.txLevel == 0
    && s.h.dtr == EncodeUpTo(s.d.sent, s.d.dynamic, i)
  }

  /** The words of a write in progress. */
  predicate WordsUpTo(sent: seq<Msg>, dynamic: bool, dtr: seq<nat>, i: nat, pos: nat)
    requires i < |sent|
  {
    && !sent[i].rd && pos <= sent[i].len
    && dtr == EncodeUpTo(sent, dynamic, i) + EncodeAt(sent, dynamic, i)[..1 + pos]
  }

  /** A write is current: the DTR words are the encoding up to and including byte tx_pos. */
  predicate Writing(s: State, i: nat) {
    && Around(s, i)
    && |s.h.logs| == i + 1
    && !s.d.sent[i].rd
    && s.d.rx.None? && s.d.msgs[i] == s.d.sent[i] && !s.d.blockRead
    && Quiet(s.h) && s.h.txLevel <= 16
    && WordsUpTo(s.d.sent, s.d.dynamic, s.h.dtr, i, s.d.txPos)
  }

  /** A read is current. */
  predicate Receiving(s: State, i: nat) {
    && Around(s, i)
    && |s.h.logs| == i + 1
    && s.d.sent[i].rd
    && s.d.rx == Some(i)
    && s.d.txPos == s.d.sent[i].len
    && s.h.dtr == EncodeUpTo(s.d.sent, s.d.dynamic, i + 1)
    && s.h.txLevel <= 2 && (s.h.logs[i].bytes != [] ==> s.h.txLevel == 0)
    && Reading(s.d.sent[i], RxView(s), s.h.logs[i], s.h.bus, s.d.dynamic)
  }

  /** The last message is a read, and it has ended: only the STOP is awaited. */
  predicate Received(s: State, i: nat) {
    && Around(s, i)
    && |s.h.logs| == i + 1
    && s.d.sent[i].rd && i == |s.d.sent| - 1
    && s.d.rx.None?
    && s.d.txPos == s.d.sent[i].len
    && s.h.dtr == EncodeUpTo(s.d.sent, s.d.dynamic, i + 1)
    && Quiet(s.h) && s.h.txLevel == 0
    && (s.d.blockRead ==> s.d.sent[i].recvLen)
    && (if s.d.sent[i].recvLen && !s.d.blockRead
        then ReadRefused(s.d.sent[i], s.d.msgs[i], s.h.logs[i])
        else ReadDone(s.d.sent[i], s.d.msgs[i], s.h.logs[i]))
  }

  /** A write starts with as much as fits behind its address. */
  const FIRST_CHUNK: int := 15

  predicate Running(s: State, i: nat) {
    || (Writing(s, i) && Min(FIRST_CHUNK, s.d.sent[i].len) <= s.d.txPos)
    || Receiving(s, i)
    || Received(s, i)
  }

  /** TX_EMPTY, once latched and enabled, is true: nothing but the handler fills the FIFO. */
  predicate TxHonest(h: Hw) {
    TxEmpty in h.isr && TxEmpty in h.ier ==> h.txLevel == 0
  }

  /** The interrupt registers during a transfer. */
  predicate Armed(s: State) {
    && (s.d.nmsgs == 1 || s.d.dynamic ==> Bnb in s.h.ier)
    && TxHonest(s.h)
    && (s.d.rx.Some? ==> RxFull in s.h.ier && TxError in s.h.ier)
    && (s.d.rx.Some? && RxFull in s.h.isr ==> |s.h.rxFifo| == Watermark(s.h))
  }

  /** No transfer: if the last one reported success, it deserved to. */
  predicate Settled(s: State) {
    s.d.completed == 1 && s.d.status == Done && !s.d.warned ==> AllDone(s) && s.h.bus == Idle
  }

  /** No byte was popped from an empty FIFO, no word pushed into a full one, no buffer
      index was out of range, and what has been written to DTR is the beginning of
      what is to be written. */
  predicate Clean(s: State) {
    && !s.h.underflow && !s.h.overflow && !s.d.overrun
    && s.h.dtr <= Encode(s.d.sent, s.d.dynamic)
  }

  predicate Data(s: State) {
    && Clean(s)
    && if s.d.tx.None? then Settled(s) else Running(s, s.d.tx.value) && Armed(s)
  }

  lemma UpToIsPrefix(sent: seq<Msg>, dynamic: bool, i: nat)
    requires i <= |sent|
    ensures EncodeUpTo(sent, dynamic, i) <= Encode(sent, dynamic)
  {
    SplitEncoding(sent, dynamic, i);
  }

  lemma WordsArePrefix(sent: seq<Msg>, dynamic: bool, dtr: seq<nat>, i: nat, pos: nat)
    requires i < |sent| && WordsUpTo(sent, dynamic, dtr, i, pos)
    ensures dtr <= Encode(sent, dynamic)
  {
    UpToIsPrefix(sent, dynamic, i + 1);
    var a, e := EncodeUpTo(sent, dynamic, i), EncodeAt(sent, dynamic, i);
    assert dtr <= a + e;
  }

  lemma RunningIsClean(s: State, i: nat)
    requires Running(s, i) || Boundary(s, i)
    ensures Clean(s)
  {
    hide EncodeUpTo, EncodeAt, Encode, EncodeFrom, WordsUpTo, ValidTransfer, MsgDone, Reading,
         ReadDone, ReadRefused;
    UpToIsPrefix(s.d.sent, s.d.dynamic, i);
    UpToIsPrefix(s.d.sent, s.d.dynamic, i + 1);
    if Writing(s, i) {
      WordsArePrefix(s.d.sent, s.d.dynamic, s.h.dtr, i, s.d.txPos);
    }
  }

  /** The invariant; it speaks about data as long as the transfer has not gone astray. */
  predicate Inv(s: State) {
    Cursor(s) && HalfOff(s) && (!Astray(s.h) ==> Data(s))
  }

  // ----- Filling the TX FIFO -----

  /** One turn of the fill loop. */
  lemma FillOne(j: TxJob, x: TxIo)
    requires x.pos < j.m.len <= |j.m.buf| && !x.overrun && x.level < 16 && !x.overflow
    ensures var y := FillByte(j, x);
            && !y.overrun && !y.overflow && y.level <= x.level + 1
            && (NoAck in y.cr ==> NoAck in x.cr)
            && (if FillGivesUp(j, x) then y.timedOut
                else && y.pos == x.pos + 1 && y.timedOut == x.timedOut
                     && y.dtr == x.dtr + [DataWord(j.m, j.last, j.dynamic, x.pos)])
  {
    hide OrBit;
  }

  /** The fill loop extends the words written by the next n data words, unless
      the wait before the last one gives up. */
  lemma {:induction false} FillBytesEncodes(j: TxJob, x: TxIo, n: nat)
    requires x.pos + n <= j.m.len <= |j.m.buf| && !x.overrun
    requires x.level + n <= 16 && !x.overflow
    ensures var y := FillBytes(j, x, n);
            && (x.timedOut ==> y.timedOut)
            && !y.overrun && !y.overflow && y.level <= x.level + n
            && (NoAck in y.cr ==> NoAck in x.cr)
            && (!y.timedOut ==>
                  && y.pos == x.pos + n
                  && y.dtr == x.dtr + DataWords(j.m, j.last, j.dynamic, j.m.len)[x.pos..x.pos + n])
    decreases n
  {
    hide FillByte, FillGivesUp, DataWord;
    var d := DataWords(j.m, j.last, j.dynamic, j.m.len);
    if n == 0 {
      assert x.dtr + d[x.pos..x.pos] == x.dtr;
    } else {
      FillOne(j, x);
      if !FillGivesUp(j, x) {
        FillBytesEncodes(j, FillByte(j, x), n - 1);
        TakeOne(x.dtr, d, x.pos, n);
      }
    }
  }

  /** Only a last standard-mode byte waits, and only if TX_EMPTY is not latched. */
  predicate NoWait(j: TxJob, x: TxIo) {
    j.dynamic || !j.last || TxEmpty in x.isr
  }

  lemma {:induction false} FillNeedsNoWait(j: TxJob, x: TxIo, n: int)
    requires NoWait(j, x)
    ensures var y := FillBytes(j, x, n);
            y.isr == x.isr && y.timedOut == x.timedOut && y.polls == x.polls
    decreases n
  {
    if n > 0 {
      FillNeedsNoWait(j, FillByte(j, x), n - 1);
    }
  }

  lemma FillStateNeedsNoWait(s: State)
    requires NoWait(JobOf(s.d), TxView(s))
    ensures var r := FillState(s);
            r.h.isr == s.h.isr && r.h.timedOut == s.h.timedOut && r.h.polls == s.h.polls
  {
    FillNeedsNoWait(JobOf(s.d), TxView(s), Min(TxFifoSpace(s.h), TxMsg(s.d).len - s.d.txPos));
  }

  lemma TakeOne(a: seq<nat>, d: seq<nat>, pos: nat, n: nat)
    requires 0 < n && pos + n <= |d|
    ensures a + [d[pos]] + d[pos + 1..pos + 1 + (n - 1)] == a + d[pos..pos + n]
  {
    assert [d[pos]] + d[pos + 1..pos + n] == d[pos..pos + n];
  }

  lemma EncodedWrite(msgs: seq<Msg>, dynamic: bool, i: nat, pos: nat, n: nat)
    requires i < |msgs| && !msgs[i].rd && pos + n <= msgs[i].len
    ensures var e := EncodeAt(msgs, dynamic, i);
            var d := DataWords(msgs[i], i == |msgs| - 1, dynamic, msgs[i].len);
            && |e| == 1 + msgs[i].len
            && e[..1 + pos] + d[pos..pos + n] == e[..1 + pos + n]
            && e[..1] == [FirstWord(msgs[i], i == |msgs| - 1, dynamic)]
  {
  }

  lemma ExtendWords(sent: seq<Msg>, dynamic: bool, dtr: seq<nat>, i: nat, pos: nat, n: nat)
    requires i < |sent| && WordsUpTo(sent, dynamic, dtr, i, pos) && pos + n <= sent[i].len
    ensures var w := DataWords(sent[i], i == |sent| - 1, dynamic, sent[i].len);
            WordsUpTo(sent, dynamic, dtr + w[pos..pos + n], i, pos + n)
  {
    EncodedWrite(sent, dynamic, i, pos, n);
    Associate(EncodeUpTo(sent, dynamic, i), EncodeAt(sent, dynamic, i)[..1 + pos],
              DataWords(sent[i], i == |sent| - 1, dynamic, sent[i].len)[pos..pos + n]);
  }

  lemma Associate(a: seq<nat>, b: seq<nat>, c: seq<nat>)
    ensures (a + b) + c == a + (b + c)
  {
  }

  lemma WordsWithin(sent: seq<Msg>, dynamic: bool, dtr: seq<nat>, i: nat, pos: nat)
    requires i < |sent| && WordsUpTo(sent, dynamic, dtr, i, pos)
    ensures pos <= sent[i].len
  {
  }

  lemma FillExtendsWords(sent: seq<Msg>, dynamic: bool, x: TxIo, i: nat, room: nat)
    requires i < |sent| && !sent[i].rd && sent[i].len <= |sent[i].buf|
    requires WordsUpTo(sent, dynamic, x.dtr, i, x.pos) && !x.overrun
    requires x.level + room <= 16 && !x.overflow
    ensures var y := FillTx(TxJob(sent[i], dynamic, i == |sent| - 1), x, room);
            && (x.timedOut ==> y.timedOut)
            && !y.overrun && !y.overflow && y.level <= 16
            && (NoAck in y.cr ==> NoAck in x.cr)
            && (!y.timedOut ==> && y.pos == x.pos + Min(room, sent[i].len - x.pos)
                                && WordsUpTo(sent, dynamic, y.dtr, i, y.pos))
  {
    hide WordsUpTo, FillBytes, DataWords;
    assert x.pos <= sent[i].len by { WordsWithin(sent, dynamic, x.dtr, i, x.pos); }
    var n := Min(room, sent[i].len - x.pos);
    FillBytesEncodes(TxJob(sent[i], dynamic, i == |sent| - 1), x, n);
    ExtendWords(sent, dynamic, x.dtr, i, x.pos, n);
  }

  /** xiic_fill_tx_fifo during a write. */
  lemma FillKeepsWriting(s: State, i: nat)
    requires Writing(s, i)
    ensures var r := FillState(s);
            && (s.h.timedOut ==> r.h.timedOut) && r.h.stray == s.h.stray
            && (!r.h.timedOut ==> Writing(r, i) && r.d.txPos == s.d.txPos
                                  + Min(TxFifoSpace(s.h), s.d.sent[i].len - s.d.txPos))
  {
    assert ValidAt(s.d.sent, s.d.dynamic, i);
    FillExtendsWords(s.d.sent, s.d.dynamic, TxView(s), i, TxFifoSpace(s.h));
    var y := FillTx(TxJob(s.d.sent[i], s.d.dynamic, i == |s.d.sent| - 1), TxView(s), TxFifoSpace(s.h));
    assert JobOf(s.d) == TxJob(s.d.sent[i], s.d.dynamic, i == |s.d.sent| - 1);
    assert FillState(s) == WithTx(s, y);
  }

  // ----- Starting a message -----

  lemma HistoryOpens(sent: seq<Msg>, msgs: seq<Msg>, logs: seq<ReadLog>, dynamic: bool, i: nat,
                     log: ReadLog)
    requires History(sent, msgs, logs, dynamic, i)
    ensures History(sent, msgs, logs + [log], dynamic, i)
  {
    forall j | 0 <= j < i
      ensures MsgDone(sent[j], msgs[j], (logs + [log])[j])
    {
      assert (logs + [log])[j] == logs[j];
    }
  }

  lemma RequestFields(h: Hw, m: Msg, last: bool)
    requires m.rd && m.len <= 255 && h.txLevel == 0
    ensures var r := RequestRead(h, m, last);
            && r.rfd == (if m.len > 0 then Min(m.len, 16) - 1 else 0)
            && r.bus == DynamicBus(h, m.len)
            && r.stray == (h.stray || (m.len == 0 && h.chip.emptyRead > 0))
            && r.dtr == h.dtr + EncodeMsg(m, last, true)
            && r.txLevel == 2 && r.overflow == h.overflow
  {
    hide AddrByte, OrBit;
  }

  lemma RecvDynamicFields(h: Hw, m: Msg, last: bool)
    requires m.rd && m.len <= 255 && h.txLevel == 0
    ensures var r := RecvDynamicHw(h, m, last);
            && r == h.(isr := r.isr, ier := r.ier, rfd := r.rfd, dtr := r.dtr, bus := r.bus,
                       txLevel := 2, stray := r.stray)
            && r.rfd == (if m.len > 0 then Min(m.len, 16) - 1 else 0)
            && r.bus == DynamicBus(h, m.len)
            && r.stray == (h.stray || (m.len == 0 && h.chip.emptyRead > 0))
            && r.dtr == h.dtr + EncodeMsg(m, last, true)
            && RxFull !in r.isr && RxFull in r.ier && TxError in r.ier && Bnb in r.ier
            && (TxEmpty in r.ier ==> TxEmpty in h.ier)
  {
    hide RequestRead, IrqClrEn, EncodeMsg;
    RecvHwFrame(h, m, last);
    ClrEnFields(h, {RxFull, TxError});
    var h1 := IrqClrEn(h, {RxFull, TxError});
    RequestFields(h1, m, last);
    ClrEnFields(RequestRead(h1, m, last), {Bnb});
  }

  lemma AddressFields(h: Hw, m: Msg, cr: set<CrBit>)
    requires m.rd && h.txLevel == 0
    ensures var r := AddressRead(h, m, cr);
            && r.bus == Std && r.stray == (h.stray || m.len == 0)
            && r.dtr == h.dtr + EncodeMsg(m, true, false)
            && r.txLevel == 1 && r.overflow == h.overflow
            && (NoAck in r.cr <==> NoAck in (if Msms in cr then h.cr else cr))
  {
    hide AddrByte;
  }

  lemma RecvStandardFields(h: Hw, m: Msg)
    requires m.rd && h.txLevel == 0
    ensures var r := RecvStandardHw(h, m);
            && r == h.(isr := r.isr, ier := r.ier, rfd := r.rfd, dtr := r.dtr, bus := Std, cr := r.cr,
                       txLevel := 1, stray := r.stray)
            && r.rfd == (if m.len > 16 then 15 else if m.len <= 1 then 0 else m.len - 2)
            && (NoAck in r.cr <==> NoAck in h.cr || (m.len == 1 && !m.recvLen))
            && r.stray == (h.stray || m.len == 0)
            && r.dtr == h.dtr + EncodeMsg(m, true, false)
            && EncodeMsg(m, true, false) == EncodeMsg(m, false, false)
            && RxFull !in r.isr && RxFull in r.ier && TxError in r.ier
            && (TxEmpty in r.ier ==> TxEmpty in h.ier)
  {
    hide AddressRead, IrqClrEn;
    RecvHwFrame(h, m, false);
    ClrEnFields(PlanRead(h, m), {RxFull, TxError});
    AddressFields(IrqClrEn(PlanRead(h, m), {RxFull, TxError}), m, FirstCr(h.cr, m));
    AddressFrame(IrqClrEn(PlanRead(h, m), {RxFull, TxError}), m, FirstCr(h.cr, m));
  }

  /** Message i is being started: its log is open, and nothing is on its way yet. */
  predicate Opening(s: State, i: nat) {
    && Around(s, i)
    && |s.h.logs| == i + 1 && s.h.logs[i] == ReadLog([], [])
    && s.d.rx.None? && s.d.msgs[i] == s.d.sent[i] && !s.d.blockRead
    && s.d.txPos == 0 && s.d.rxPos == 0
    && Quiet(s.h) && s.h.txLevel == 0
    && s.h.dtr == EncodeUpTo(s.d.sent, s.d.dynamic, i)
  }

  lemma BoundaryOpens(s: State, i: nat)
    requires Boundary(s, i)
    ensures Opening(Opened(s), i)
  {
    HistoryOpens(s.d.sent, s.d.msgs, s.h.logs, s.d.dynamic, i, ReadLog([], []));
  }

  /** A read that has received nothing yet. */
  predicate Fresh(s: State, i: nat) {
    Receiving(s, i) && s.d.rxPos == 0 && s.h.rxFifo == []
  }

  /** The message is under way once its address is out and the watermark set. */
  lemma RecvStartedReceives(s: State, h: Hw, i: nat)
    requires Opening(s, i) && s.d.sent[i].rd
    requires h == s.h.(isr := h.isr, ier := h.ier, rfd := h.rfd, dtr := h.dtr, bus := h.bus,
                       cr := h.cr, polls := h.polls, txLevel := h.txLevel, stray := h.stray)
    requires h.dtr == EncodeUpTo(s.d.sent, s.d.dynamic, i + 1)
    requires RxFull !in h.isr && RxFull in h.ier && TxError in h.ier && TxEmpty !in h.ier && h.txLevel <= 2
    requires s.d.dynamic ==> Bnb in h.ier
    requires Reading(s.d.sent[i],
                     RxIo(s.d.sent[i], 0, [], h.cr, h.rfd, false, 0, s.h.underflow, s.d.overrun),
                     ReadLog([], []), h.bus, s.d.dynamic)
    ensures var r := RecvStarted(s.d, h);
            Fresh(r, i) && Armed(r) && r.h.timedOut == h.timedOut && r.h.stray == h.stray
  {
  }

  lemma StartRecvDynamic(s: State, i: nat)
    requires Opening(s, i) && s.d.sent[i].rd && s.d.dynamic
    ensures var r := StartRecv(s);
            && r.h.timedOut == s.h.timedOut && (s.h.stray ==> r.h.stray)
            && (!r.h.stray ==> Fresh(r, i) && Armed(r))
  {
    hide RecvDynamicHw, RecvStarted, Opening, Reading, Fresh, Armed;
    OpeningFields(s, i);
    var o, last := s.d.sent[i], s.d.nmsgs == 1;
    var h0 := IrqDis(s.h, {TxHalf, TxEmpty});
    RecvDynamicFields(h0, o, last);
    var h := RecvDynamicHw(h0, o, last);
    RecvStartedFrame(s.d, h);
    if !h.stray {
      ReadBegins(o, RxIo(o, 0, [], h.cr, h.rfd, false, 0, s.h.underflow, s.d.overrun), h.bus, true);
      RecvStartedReceives(s, h, i);
    }
  }

  lemma OpeningFields(s: State, i: nat)
    requires Opening(s, i)
    ensures i < |s.d.sent| && TxMsg(s.d) == s.d.sent[i] && ValidAt(s.d.sent, s.d.dynamic, i)
    ensures s.h.txLevel == 0 && NoAck !in s.h.cr && !s.h.underflow && !s.d.overrun
    ensures (s.d.nmsgs == 1) == (i == |s.d.sent| - 1)
    ensures s.h.dtr + EncodeMsg(s.d.sent[i], s.d.nmsgs == 1, s.d.dynamic)
         == EncodeUpTo(s.d.sent, s.d.dynamic, i + 1)
  {
    assert EncodeAt(s.d.sent, s.d.dynamic, i)
        == EncodeMsg(s.d.sent[i], s.d.nmsgs == 1, s.d.dynamic);
  }

  /** h: the controller after the transmit interrupts are off and the wait is over. */
  lemma RecvStandardReceives(s: State, h: Hw, i: nat)
    requires Opening(s, i) && s.d.sent[i].rd && !s.d.dynamic
    requires h == s.h.(isr := h.isr, ier := h.ier, polls := h.polls) && TxEmpty !in h.ier
    ensures var r := RecvStarted(s.d, RecvStandardHw(h, s.d.sent[i]));
            && r.h.timedOut == s.h.timedOut && (s.h.stray ==> r.h.stray)
            && (!r.h.stray ==> Fresh(r, i) && Armed(r))
  {
    hide RecvStandardHw, RecvStarted, Opening, Reading, Fresh, Armed;
    OpeningFields(s, i);
    var o := s.d.sent[i];
    RecvStandardFields(h, o);
    var r := RecvStandardHw(h, o);
    RecvStartedFrame(s.d, r);
    if !r.stray {
      ReadBegins(o, RxIo(o, 0, [], r.cr, r.rfd, false, 0, s.h.underflow, s.d.overrun), Std, false);
      RecvStartedReceives(s, r, i);
    }
  }

  lemma StartRecvStandard(s: State, i: nat)
    requires Opening(s, i) && s.d.sent[i].rd && !s.d.dynamic
    ensures var r := StartRecv(s);
            && (s.h.timedOut ==> r.h.timedOut) && (s.h.stray ==> r.h.stray)
            && (!Astray(r.h) ==> Fresh(r, i) && Armed(r))
  {
    hide RecvStandardHw, RecvStarted, Opening, Fresh, Armed;
    OpeningFields(s, i);
    if !(s.d.prevTx && !PollOk(s.h)) {
      var h0 := IrqDis(s.h, {TxHalf, TxEmpty});
      RecvStandardReceives(s, if s.d.prevTx then Poll(h0) else h0, i);
    }
  }

  lemma SendDynamicFields(h: Hw, m: Msg, last: bool)
    requires !m.rd && h.txLevel == 0
    ensures var r := SendDynamicHw(h, m, last);
            && r == h.(isr := r.isr, ier := r.ier, dtr := r.dtr, txLevel := 1)
            && r.dtr == h.dtr + [FirstWord(m, last, true)]
            && Bnb in r.ier && TxEmpty !in r.isr
  {
    hide AddrByte, OrBit;
  }

  lemma SendStandardFields(h: Hw, m: Msg, last: bool)
    requires h.txLevel == 0
    ensures var r := SendStandardHw(h, m);
            && r == h.(cr := r.cr, dtr := r.dtr, txLevel := 1)
            && r.dtr == h.dtr + [FirstWord(m, last, false)]
            && (NoAck in r.cr ==> NoAck in h.cr)
  {
  }

  lemma SendEndFields(h: Hw, wasMaster: bool)
    ensures var r := SendStandardEndHw(h, wasMaster);
            && r == h.(isr := r.isr, ier := r.ier, cr := r.cr)
            && (NoAck in r.cr ==> NoAck in h.cr)
            && Bnb in r.ier && TxEmpty !in r.isr
  {
  }

  /** The first word of a write is out. */
  lemma FirstWordOut(sent: seq<Msg>, dynamic: bool, i: nat)
    requires i < |sent| && !sent[i].rd
    ensures WordsUpTo(sent, dynamic,
                      EncodeUpTo(sent, dynamic, i) + [FirstWord(sent[i], i == |sent| - 1, dynamic)],
                      i, 0)
  {
    EncodedWrite(sent, dynamic, i, 0, 0);
  }

  /** What a started write looks like. */
  predicate Begun(r: State, i: nat) {
    && Writing(r, i) && Armed(r)
    && r.d.txPos == Min(FIRST_CHUNK, r.d.sent[i].len)
  }

  lemma StartSendDynamic(s: State, i: nat)
    requires Opening(s, i) && !s.d.sent[i].rd && s.d.dynamic
    ensures var r := StartSend(s);
            && r.h.timedOut == s.h.timedOut && r.h.stray == s.h.stray
            && (!r.h.timedOut ==> Begun(r, i))
  {
    hide SendDynamicHw, FillState, WordsUpTo, EncodeUpTo, History;
    OpeningFields(s, i);
    var o, last := s.d.sent[i], s.d.nmsgs == 1;
    FirstWordOut(s.d.sent, true, i);
    SendDynamicFields(s.h, o, last);
    var t := State(s.d, SendDynamicHw(s.h, o, last));
    FillKeepsWriting(t, i);
    FillStateNeedsNoWait(t);
    FillFrame(t);
  }

  lemma StartSendStandard(s: State, i: nat)
    requires Opening(s, i) && !s.d.sent[i].rd && !s.d.dynamic
    ensures var r := StartSend(s);
            && (s.h.timedOut ==> r.h.timedOut) && r.h.stray == s.h.stray
            && (!r.h.timedOut ==> Begun(r, i))
  {
    hide Writing, Armed, StartSend, FillState, SendStandardHw, SendStandardEndHw, Poll, PollOk;
    var h := AfterWait(s);
    StandardSend(s);
    WaitFields(s.h);
    if !StartGivesUp(s) {
      AddressOut(s, h, i);
      SendStandardFills(State(s.d, SendStandardHw(h, s.d.sent[i])), i, Msms in h.cr);
    }
  }

  lemma WaitFields(h: Hw)
    ensures var r := Poll(h);
            && r == h.(isr := r.isr, polls := r.polls, timedOut := r.timedOut, txLevel := r.txLevel)
            && (h.timedOut ==> r.timedOut) && (h.txLevel == 0 ==> r.txLevel == 0)
  {
  }

  lemma StandardSend(s: State)
    requires !s.d.dynamic
    ensures if StartGivesUp(s) then StartSend(s) == State(s.d, Poll(s.h)) && Poll(s.h).timedOut
            else var h := AfterWait(s);
                 var t := FillState(State(s.d, SendStandardHw(h, TxMsg(s.d))));
                 StartSend(s) == State(t.d.(prevTx := true), SendStandardEndHw(t.h, Msms in h.cr))
  {
    hide FillState, SendStandardHw, SendStandardEndHw;
  }

  /** h: the controller after the wait is over. */
  lemma AddressOut(s: State, h: Hw, i: nat)
    requires Opening(s, i) && !s.d.sent[i].rd && !s.d.dynamic
    requires h == s.h.(isr := h.isr, polls := h.polls, timedOut := h.timedOut)
    ensures var t := State(s.d, SendStandardHw(h, s.d.sent[i]));
            && Writing(t, i) && t.h.txLevel == 1 && t.d.txPos == 0
            && t.h.timedOut == h.timedOut && t.h.stray == h.stray
  {
    hide EncodeUpTo, ValidTransfer, MsgDone;
    FirstWordOut(s.d.sent, false, i);
    SendStandardFields(h, s.d.sent[i], i == |s.d.sent| - 1);
  }

  lemma SendStandardFills(s: State, i: nat, wasMaster: bool)
    requires Writing(s, i) && s.h.txLevel == 1 && s.d.txPos == 0
    ensures var t := FillState(s);
            var r := State(t.d.(prevTx := true), SendStandardEndHw(t.h, wasMaster));
            && (s.h.timedOut ==> r.h.timedOut) && r.h.stray == s.h.stray
            && (!r.h.timedOut ==> Begun(r, i))
  {
    hide History, WordsUpTo, FillState, SendStandardEndHw;
    FillKeepsWriting(s, i);
    FillFrame(s);
    SendEndFields(FillState(s).h, wasMaster);
  }

  /** From a boundary, __xiic_start_xfer begins message i. */
  lemma StartNextBegins(s: State, i: nat)
    requires Boundary(s, i)
    ensures var r := StartNext(s);
            && (s.h.timedOut ==> r.h.timedOut) && (s.h.stray ==> r.h.stray)
            && (!Astray(r.h) ==>
                  && Armed(r) && Running(r, i)
                  && (if s.d.sent[i].rd then Fresh(r, i) else Begun(r, i)))
  {
    hide StartRecv, StartSend, Opening, Writing, Receiving, Received, Armed;
    BoundaryOpens(s, i);
    OpeningFields(Opened(s), i);
    StartNextFrame(s);
    if s.d.sent[i].rd {
      if s.d.dynamic { StartRecvDynamic(Opened(s), i); } else { StartRecvStandard(Opened(s), i); }
    } else {
      if s.d.dynamic { StartSendDynamic(Opened(s), i); } else { StartSendStandard(Opened(s), i); }
    }
  }

  // ----- The environment keeps the invariant -----

  lemma HistoryIgnoresLast(sent: seq<Msg>, msgs: seq<Msg>, logs: seq<ReadLog>, dynamic: bool,
                           i: nat, m: Msg, log: ReadLog)
    requires History(sent, msgs, logs, dynamic, i) && |logs| == i + 1
    ensures History(sent, msgs[i := m], logs[i := log], dynamic, i)
    ensures History(sent, msgs[i := m], logs, dynamic, i)
  {
  }

  lemma ClockKeepsReceiving(s: State, i: nat, b: Byte)
    requires Receiving(s, i) && Armed(s) && CanClock(s.h)
    ensures var r := State(s.d, Clock(s.h, b)); Receiving(r, i) && Armed(r)
  {
    var h := Clock(s.h, b);
    ClockKeepsReading(s.d.sent[i], RxView(s), s.h.logs[i], s.h.bus, s.d.dynamic, b, NackNext(s.h));
    HistoryIgnoresLast(s.d.sent, s.d.msgs, s.h.logs, s.d.dynamic, i, s.d.msgs[i], h.logs[i]);
    assert s.d.msgs[i := s.d.msgs[i]] == s.d.msgs;
    assert RxView(State(s.d, h)) == RxView(s).(fifo := s.h.rxFifo + [b]);
  }

  lemma ClockKeepsInv(s: State, b: Byte)
    requires Inv(s)
    ensures Inv(State(s.d, Clock(s.h, b)))
  {
    if CanClock(s.h) && !Astray(s.h) && s.d.tx.Some? {
      ClockKeepsReceiving(s, s.d.tx.value, b);
    }
  }

  lemma IrqsKeepRunning(s: State, h: Hw, i: nat)
    requires Running(s, i)
    requires h == s.h.(isr := h.isr, ier := h.ier, txLevel := h.txLevel)
    requires h.txLevel <= s.h.txLevel
    ensures Running(State(s.d, h), i)
  {
    assert RxView(State(s.d, h)) == RxView(s);
  }

  lemma LatchKeepsInv(s: State, bits: set<Irq>)
    requires Inv(s)
    ensures Inv(State(s.d, Latch(s.h, bits)))
  {
    hide Running, Encode;
    if !Astray(s.h) && s.d.tx.Some? {
      IrqsKeepRunning(s, Latch(s.h, bits), s.d.tx.value);
    }
  }

  lemma DrainKeepsInv(s: State, level: nat)
    requires Inv(s)
    ensures Inv(State(s.d, Drain(s.h, level)))
  {
    hide Running, Encode;
    if !Astray(s.h) && s.d.tx.Some? {
      IrqsKeepRunning(s, Drain(s.h, level), s.d.tx.value);
    }
  }

  // ----- The handler's branches -----

  /** After a branch: the current message goes on, or the next is to be started. */
  predicate AfterBranch(p: Pass, i: nat) {
    if p.more then Boundary(p.s, i + 1) else Running(p.s, i)
  }

  lemma ReadGoesOn(s: State, i: nat)
    requires Receiving(s, i) && Ripe(RxView(s))
    requires Left(ReadRx(RxView(s), s.d.dynamic, s.d.nmsgs == 1)) != 0
    ensures Receiving(WithRx(s, ReadRx(RxView(s), s.d.dynamic, s.d.nmsgs == 1)), i)
  {
    var x := ReadRx(RxView(s), s.d.dynamic, s.d.nmsgs == 1);
    ReadKeepsOrder(s.d.sent[i], RxView(s), s.h.logs[i], s.h.bus, s.d.dynamic, s.d.nmsgs == 1);
    HistoryIgnoresLast(s.d.sent, s.d.msgs, s.h.logs, s.d.dynamic, i, x.m, s.h.logs[i]);
    assert RxView(WithRx(s, x)) == x;
  }

  /** A read that has ended leaves the state as Received, and lets the next
      message, if there is one, begin. */
  lemma ReadEnds(s: State, i: nat)
    requires Receiving(s, i) && Ripe(RxView(s))
    requires Left(ReadRx(RxView(s), s.d.dynamic, s.d.nmsgs == 1)) == 0
    ensures var x := TrimLen(ReadRx(RxView(s), s.d.dynamic, s.d.nmsgs == 1));
            var s1 := WithRx(s, x);
            var r := State(Advance(s1.d.(rx := None)), s1.h);
            if s.d.nmsgs > 1 then Boundary(r, i + 1) else Received(r, i)
  {
    var x := TrimLen(ReadRx(RxView(s), s.d.dynamic, s.d.nmsgs == 1));
    ReadKeepsOrder(s.d.sent[i], RxView(s), s.h.logs[i], s.h.bus, s.d.dynamic, s.d.nmsgs == 1);
    HistoryIgnoresLast(s.d.sent, s.d.msgs, s.h.logs, s.d.dynamic, i, x.m, s.h.logs[i]);
    assert ValidAt(s.d.sent, s.d.dynamic, i);
    if s.d.nmsgs > 1 {
      HistoryGrows(s.d.sent, s.d.msgs[i := x.m], s.h.logs, s.d.dynamic, i);
    }
  }

  lemma HistoryGrows(sent: seq<Msg>, msgs: seq<Msg>, logs: seq<ReadLog>, dynamic: bool, i: nat)
    requires History(sent, msgs, logs, dynamic, i) && i + 1 < |sent| && i < |logs|
    requires MsgDone(sent[i], msgs[i], logs[i])
    ensures History(sent, msgs, logs, dynamic, i + 1)
    ensures msgs[i + 1] == sent[i + 1]
  {
  }

  lemma RxPartData(s: State, i: nat, pend: set<Irq>, clr: set<Irq>)
    requires Running(s, i)
    requires RxFull in pend && s.d.rx.Some? ==> Ripe(RxView(s))
    ensures var p := RxPart(s, pend, clr);
            && AfterBranch(p, i)
            && p.s.h.isr == s.h.isr && p.s.h.ier == s.h.ier && p.s.h.txLevel == s.h.txLevel
            && p.s.h.timedOut == s.h.timedOut && p.s.h.stray == s.h.stray
            && (RxFull !in pend ==> p == Pass(s, clr, false, false, None))
            && (RxFull in pend ==> RxFull in p.clr)
            && (p.jumped ==> p.s.d.rx.None?) && p.wake.None?
            && (p.s.d.rx.Some? ==> s.d.rx.Some?)
  {
    hide ReadRx, Reading, History, TrimLen;
    if RxFull in pend {
      if Receiving(s, i) {
        if Left(ReadRx(RxView(s), s.d.dynamic, s.d.nmsgs == 1)) != 0 {
          ReadGoesOn(s, i);
        } else {
          ReadEnds(s, i);
        }
      } else {
        assert s.h.(rxFifo := []) == s.h;
      }
    }
  }

  /** A message whose bytes are all out makes way for the next. */
  lemma WriteEnds(s: State, i: nat)
    requires Writing(s, i) && s.d.txPos == s.d.sent[i].len && s.d.nmsgs > 1 && s.h.txLevel == 0
    ensures Boundary(State(Advance(s.d), s.h), i + 1)
  {
    HistoryGrows(s.d.sent, s.d.msgs, s.h.logs, s.d.dynamic, i);
    WholeWriteOut(s.d.sent, s.d.dynamic, s.h.dtr, i);
  }

  lemma WholeWriteOut(sent: seq<Msg>, dynamic: bool, dtr: seq<nat>, i: nat)
    requires i < |sent| && !sent[i].rd && WordsUpTo(sent, dynamic, dtr, i, sent[i].len)
    ensures dtr == EncodeUpTo(sent, dynamic, i + 1)
  {
    var e := EncodeAt(sent, dynamic, i);
    assert e[..1 + sent[i].len] == e;
  }

  lemma TxPartData(p: Pass, i: nat, pend: set<Irq>)
    requires AfterBranch(p, i)
    requires !p.more && !Writing(p.s, i) ==> p.jumped || pend * {TxEmpty, TxHalf} == {}
    requires p.more ==> pend * {TxEmpty, TxHalf} == {}
    requires TxEmpty in pend && Writing(p.s, i) ==> p.s.h.txLevel == 0
    ensures var q := TxPart(p, pend);
            && (p.s.h.timedOut ==> q.s.h.timedOut) && q.s.h.stray == p.s.h.stray
            && (!q.s.h.timedOut ==> AfterBranch(q, i))
            && (p.s.d.rx.Some? ==> q == p)
            && (Bnb in p.s.h.ier ==> Bnb in q.s.h.ier)
            && q.wake == p.wake && q.jumped == p.jumped && q.s.d.rx == p.s.d.rx
            && q.s.d.warned == p.s.d.warned
  {
    hide FillState, History, Reading, WordsUpTo, Receiving, Received;
    if !p.more && !p.jumped && pend * {TxEmpty, TxHalf} != {} {
      WritingFields(p.s, i);
      if TxSpace(p.s.d) != 0 {
        FirstChunkOut(p.s, i);
        FillKeepsWriting(p.s, i);
        FillFrame(p.s);
      } else if p.s.d.nmsgs > 1 && TxEmpty in pend {
        WriteEnds(p.s, i);
      } else {
        IrqsKeepRunning(p.s, IrqDis(p.s.h, {TxHalf}), i);
      }
    }
  }

  lemma FirstChunkOut(s: State, i: nat)
    requires Running(s, i) && Writing(s, i)
    ensures Min(FIRST_CHUNK, s.d.sent[i].len) <= s.d.txPos
  {
  }

  lemma WritingFields(s: State, i: nat)
    requires Writing(s, i)
    ensures i < |s.d.sent| && s.d.tx == Some(i) && s.d.rx.None? && TxMsg(s.d) == s.d.sent[i]
    ensures !s.d.sent[i].rd && s.d.txPos <= s.d.sent[i].len && s.d.nmsgs == |s.d.sent| - i
  {
    WordsWithin(s.d.sent, s.d.dynamic, s.h.dtr, i, s.d.txPos);
  }

  /** The bus has become free: success is reported for the last message only, and
      only when nothing of it is missing. */
  lemma BnbPartData(p: Pass, i: nat, pend: set<Irq>)
    requires AfterBranch(p, i) && p.wake.None?
    ensures var q := BnbPart(p, pend);
            && q.more == p.more
            && (q.wake.None? ==> q == p)
            && q.s.h.timedOut == p.s.h.timedOut
            && (q.more ==> Boundary(q.s, i + 1))
            && Clean(q.s)
            && (q.wake == Some(Done) && !q.more ==> AllDone(q.s) && q.s.h.bus == Idle)
  {
    hide History, Reading, WordsUpTo, Encode, MsgDone, ReadDone, ReadRefused, AllDone;
    var q := BnbPart(p, pend);
    RunningIsClean(p.s, if p.more then i + 1 else i);
    if q.wake == Some(Done) && !q.more {
      LastMessageDone(p.s, i);
      BnbChanges(p, pend);
      SameDone(p.s, q.s);
    }
  }

  lemma LastMessageDone(s: State, i: nat)
    requires Running(s, i) && s.d.nmsgs == 1 && s.d.rx.None?
    requires s.d.blockRead || TxSpace(s.d) == 0
    ensures AllDone(s) && s.h.bus == Idle
  {
    hide EncodeUpTo, EncodeAt, WordsUpTo, Reading;
    assert ValidAt(s.d.sent, s.d.dynamic, i);
    if Writing(s, i) {
      WholeWriteOut(s.d.sent, s.d.dynamic, s.h.dtr, i);
    }
    SplitEncoding(s.d.sent, s.d.dynamic, i + 1);
    assert EncodeFrom(s.d.sent, s.d.dynamic, i + 1) == [];
    assert MsgDone(s.d.sent[i], s.d.msgs[i], s.h.logs[i]);
  }

  // ----- A whole pass of the handler -----

  /** At the label "out". */
  predicate PassData(s: State, p: Pass, i: nat) {
    && (s.h.timedOut ==> p.s.h.timedOut) && p.s.h.stray == s.h.stray
    && (!p.s.h.timedOut ==>
          && Clean(p.s)
          && (p.more ==> Boundary(p.s, i + 1))
          && (p.wake.None? ==> && AfterBranch(p, i)
                               && (Bnb in s.h.ier ==> Bnb in p.s.h.ier))
          && (p.wake == Some(Done) && !p.more ==> AllDone(p.s) && p.s.h.bus == Idle))
  }

  /** How RX_FULL is left if the read goes on. */
  predicate PassIrqs(s: State, p: Pass, pend: set<Irq>, clr: set<Irq>) {
    !p.s.h.timedOut && p.wake.None? && p.s.d.rx.Some? ==>
      && s.d.rx.Some?
      && p.s.h.isr == s.h.isr && p.s.h.ier == s.h.ier
      && (RxFull in pend ==> RxFull in p.clr)
      && (RxFull !in pend ==> p.s == s && p.clr == clr)
  }

  /** What may be pending while message i is current. */
  predicate PendOk(s: State, i: nat, pend: set<Irq>)
    requires i < |s.d.sent|
  {
    && (RxFull in pend && s.d.rx.Some? ==> Ripe(RxView(s)))
    && (s.d.sent[i].rd ==> pend * {TxEmpty, TxHalf} == {})
    && (TxEmpty in pend ==> s.h.txLevel == 0 && TxEmpty in s.h.isr)
    && (TxEmpty in s.h.isr && TxEmpty in s.h.ier ==> TxEmpty in pend)
    && (!s.d.dynamic && s.d.nmsgs == 1 ==> TxHalf !in pend)
  }

  lemma BranchesData(s: State, i: nat, pend: set<Irq>, clr: set<Irq>)
    requires Running(s, i) && PendOk(s, i, pend)
    ensures PassData(s, Branches(s, pend, clr), i)
    ensures PassIrqs(s, Branches(s, pend, clr), pend, clr)
  {
    hide RxPart, TxPart, BnbPart, PassData, PassIrqs, AfterBranch, ReadRx, Reading, History, Writing,
         Receiving, Received;
    RxPartData(s, i, pend, clr);
    var p1 := RxPart(s, pend, clr);
    TxBranchFits(s, i, p1, pend, clr);
    TxPartData(p1, i, pend);
    BnbAfterTx(s, p1, TxPart(p1, pend), i, pend, clr);
  }

  /** The TX branch finds what it expects. */
  lemma TxBranchFits(s: State, i: nat, p1: Pass, pend: set<Irq>, clr: set<Irq>)
    requires Running(s, i) && p1 == RxPart(s, pend, clr) && AfterBranch(p1, i)
    requires s.d.sent[i].rd ==> pend * {TxEmpty, TxHalf} == {}
    requires TxEmpty in pend ==> s.h.txLevel == 0
    ensures !p1.more && !Writing(p1.s, i) ==> p1.jumped || pend * {TxEmpty, TxHalf} == {}
    ensures p1.more ==> pend * {TxEmpty, TxHalf} == {}
    ensures TxEmpty in pend && Writing(p1.s, i) ==> p1.s.h.txLevel == 0
    ensures pend * {TxEmpty, TxHalf} != {} ==> p1.s.d == s.d && p1.s.h == s.h.(rxFifo := p1.s.h.rxFifo)
  {
    hide ReadRx, TrimLen, Reading, WordsUpTo, EncodeUpTo;
  }

  lemma BnbAfterTx(s: State, p1: Pass, p2: Pass, i: nat, pend: set<Irq>, clr: set<Irq>)
    requires p1.s.h.stray == p2.s.h.stray == s.h.stray
    requires s.h.timedOut ==> p2.s.h.timedOut
    requires p1.s.h.isr == s.h.isr && p1.s.h.ier == s.h.ier
    requires RxFull !in pend ==> p1 == Pass(s, clr, false, false, None)
    requires RxFull in pend ==> RxFull in p1.clr
    requires p1.s.d.rx.Some? ==> p2 == p1
    requires p1.s.d.rx == p2.s.d.rx && p2.wake.None?
    requires p1.s.d.rx.Some? ==> s.d.rx.Some?
    requires Bnb in p1.s.h.ier ==> Bnb in p2.s.h.ier
    requires !p2.s.h.timedOut ==> AfterBranch(p2, i)
    ensures PassData(s, BnbPart(p2, pend), i)
    ensures PassIrqs(s, BnbPart(p2, pend), pend, clr)
  {
    if !p2.s.h.timedOut {
      hide AfterBranch, Clean, AllDone, Boundary;
      BnbPartData(p2, i, pend);
      BnbFrame(p2, pend);
    } else {
      BnbFrame(p2, pend);
    }
  }

  /** What the "bus not busy" branch may change. */
  lemma BnbChanges(p: Pass, pend: set<Irq>)
    ensures var q := BnbPart(p, pend);
            && q.more == p.more && q.s.h == p.s.h.(ier := q.s.h.ier)
            && q.s.d == p.s.d.(blockRead := q.s.d.blockRead, txPos := q.s.d.txPos)
            && (q.s.d.txPos == p.s.d.txPos || (p.s.d.tx.Some? && q.s.d.txPos == TxMsg(p.s.d).len))
  {
    hide TxMsg;
  }

  lemma BnbFrame(p: Pass, pend: set<Irq>)
    ensures var q := BnbPart(p, pend);
            && q.s.h == p.s.h.(ier := q.s.h.ier) && q.s.d.rx == p.s.d.rx
            && p.clr <= q.clr && q.clr <= p.clr + {Bnb}
            && (Bnb !in pend ==> q == p)
            && (q.wake.None? && p.wake.None? && p.s.d.tx.Some? ==> q == p)
  {
  }

  /** The transmit branch takes the bits it has served out of IISR, and sets none. */
  lemma TxPartIrqs(p: Pass, pend: set<Irq>)
    requires pend * {TxEmpty, TxHalf} != {} && !p.jumped && p.s.d.tx.Some?
    requires NoWait(JobOf(p.s.d), TxView(p.s))
    ensures var q := TxPart(p, pend);
            && q.s.h.isr == p.s.h.isr && q.s.h.ier <= p.s.h.ier
            && q.clr == p.clr + pend * {TxEmpty, TxHalf}
            && q.s.h.timedOut == p.s.h.timedOut && q.s.d.tx.Some? && q.wake == p.wake
  {
    hide FillState;
    FillStateNeedsNoWait(p.s);
    FillFrame(p.s);
  }

  /** So TX_EMPTY stays truthful. */
  lemma StaysHonest(s: State, i: nat, pend: set<Irq>, clr: set<Irq>, noRxFull: bool)
    requires Running(s, i) && PendOk(s, i, pend) && TxHonest(s.h) && TxEmpty !in clr
    ensures var p := Branches(s, pend, clr);
            p.wake.None? && !p.more && !p.s.h.timedOut ==>
              TxHonest(WriteIisr(p.s.h, ClearWord(p, noRxFull)))
  {
    hide RxPart, TxPart, BnbPart, ReadRx, Reading, History, WordsUpTo;
    RxPartData(s, i, pend, clr);
    var p1 := RxPart(s, pend, clr);
    TxBranchFits(s, i, p1, pend, clr);
    RxClears(s, pend, clr);
    var p2 := TxPart(p1, pend);
    BnbFrame(p2, pend);
    RunningHasTx(s, p1, i);
    if pend * {TxEmpty, TxHalf} == {} || p1.jumped {
      NoTxPart(p1, pend);
    } else {
      TxPartIrqs(p1, pend);
      if BnbPart(p2, pend).wake.None? {
        ServedIsHonest(s.h, pend, BnbPart(p2, pend), noRxFull);
      }
    }
  }

  lemma ServedIsHonest(h: Hw, pend: set<Irq>, q: Pass, noRxFull: bool)
    requires q.s.h.isr == h.isr && q.s.h.ier <= h.ier
    requires TxEmpty in q.clr <==> TxEmpty in pend
    requires TxEmpty in pend ==> TxEmpty in h.isr
    requires TxEmpty in h.isr && TxEmpty in h.ier ==> TxEmpty in pend
    ensures TxHonest(WriteIisr(q.s.h, ClearWord(q, noRxFull)))
  {
  }

  lemma RunningHasTx(s: State, p: Pass, i: nat)
    requires Running(s, i)
    ensures s.d.tx == Some(i) && s.d.nmsgs == |s.d.sent| - i
    ensures AfterBranch(p, i) ==> p.s.d.tx.Some?
  {
  }

  lemma NoTxPart(p: Pass, pend: set<Irq>)
    requires pend * {TxEmpty, TxHalf} == {} || p.jumped
    ensures TxPart(p, pend) == p
  {
  }

  lemma RxClears(s: State, pend: set<Irq>, clr: set<Irq>)
    ensures RxPart(s, pend, clr).clr <= clr + {RxFull, TxError}
  {
    hide ReadRx, TrimLen;
  }

  /** The registers at exit, if the same message goes on. */
  predicate ExitArmed(h: Hw, reading: bool) {
    && TxHonest(h)
    && (reading ==> RxFull in h.ier && TxError in h.ier)
    && (reading && RxFull in h.isr ==> |h.rxFifo| == Watermark(h))
  }

  lemma FinishData(s: State, p: Pass, i: nat, noRxFull: bool)
    requires PassData(s, p, i)
    requires s.d.nmsgs == 1 || s.d.dynamic ==> Bnb in s.h.ier
    requires !p.more ==> p.s.d.nmsgs == s.d.nmsgs && p.s.d.dynamic == s.d.dynamic
    requires !p.s.h.timedOut && !p.more && p.wake.None? ==>
               ExitArmed(WriteIisr(p.s.h, ClearWord(p, noRxFull)), p.s.d.rx.Some?)
    ensures var r := Finish(p, noRxFull);
            && (p.s.h.timedOut ==> r.h.timedOut) && (s.h.stray ==> r.h.stray)
            && (!Astray(r.h) ==>
                  && Clean(r)
                  && (if p.wake.Some? then Settled(r)
                      else Running(r, if p.more then i + 1 else i) && Armed(r)))
  {
    hide Running, Boundary, Encode, AllDone;
    var s1 := State(p.s.d, WriteIisr(p.s.h, ClearWord(p, noRxFull)));
    if p.more {
      GoesOn(p, s1, i);
      FinishMore(p, StartNext(s1), i, noRxFull);
    } else if !p.s.h.timedOut && p.wake.None? {
      IrqsKeepRunning(p.s, s1.h, i);
    } else if p.wake == Some(Done) {
      SameDone(p.s, Finish(p, noRxFull));
    }
  }

  lemma SameDone(a: State, b: State)
    requires a.d.sent == b.d.sent && a.d.msgs == b.d.msgs && a.d.dynamic == b.d.dynamic
    requires a.h.logs == b.h.logs && a.h.dtr == b.h.dtr
    ensures AllDone(a) <==> AllDone(b)
  {
  }

  /** The next message is begun. */
  lemma GoesOn(p: Pass, s1: State, i: nat)
    requires !p.s.h.timedOut ==> Boundary(p.s, i + 1)
    requires s1.d == p.s.d && s1.h == p.s.h.(isr := s1.h.isr)
    ensures var r := StartNext(s1);
            && (p.s.h.timedOut ==> r.h.timedOut) && (p.s.h.stray ==> r.h.stray)
            && (!Astray(r.h) ==> Running(r, i + 1) && Armed(r) && Clean(r))
  {
    hide StartNext, History, Running, WordsUpTo, Encode, Clean, Armed;
    StartNextKeepsAstray(s1);
    if !p.s.h.timedOut {
      StartNextBegins(s1, i + 1);
      if !Astray(StartNext(s1).h) {
        RunningIsClean(StartNext(s1), i + 1);
      }
    }
  }

  lemma FinishMore(p: Pass, s2: State, i: nat, noRxFull: bool)
    requires p.more
    requires s2 == StartNext(State(p.s.d, WriteIisr(p.s.h, ClearWord(p, noRxFull))))
    requires !Astray(s2.h) ==> Running(s2, i + 1) && Armed(s2) && Clean(s2)
    ensures var r := Finish(p, noRxFull);
            && r.h == s2.h
            && (!Astray(r.h) ==> Clean(r) && (if p.wake.Some? then Settled(r)
                                              else Running(r, i + 1) && Armed(r)))
  {
    hide StartNext, Encode, History, Reading, WordsUpTo;
    var r := Finish(p, noRxFull);
    if p.wake.None? {
      assert r.d == s2.d.(warned := r.d.warned);
      assert RxView(r) == RxView(s2);
    }
  }

  lemma StartNextKeepsAstray(s: State)
    ensures s.h.timedOut ==> StartNext(s).h.timedOut
    ensures s.h.stray ==> StartNext(s).h.stray
  {
    hide StartRecv, StartSend;
    StartRecvKeepsAstray(Opened(s));
    StartSendKeepsAstray(Opened(s));
  }

  /** A read of no bytes for which the bus clocks some all the same. */
  predicate ClockedEmpty(m: Msg, dynamic: bool, emptyRead: nat) {
    m.rd && m.len == 0 && (!dynamic || emptyRead > 0)
  }

  /** Nothing else makes a transfer go astray but a wait that times out. */
  lemma StartStray(s: State)
    requires s.d.tx.Some?
    ensures var r, e := StartNext(s), ClockedEmpty(TxMsg(s.d), s.d.dynamic, s.h.chip.emptyRead);
            && r.h.chip == s.h.chip && r.h.drains == s.h.drains
            && (r.h.stray ==> s.h.stray || e)
            && (!r.h.timedOut ==> (r.h.stray <==> s.h.stray || e))
  {
    hide StartRecv, StartSend;
    RecvStray(Opened(s));
    StartSendKeepsAstray(Opened(s));
  }

  lemma RecvStray(s: State)
    ensures var r, m := StartRecv(s), TxMsg(s.d);
            var e := m.len == 0 && (!s.d.dynamic || s.h.chip.emptyRead > 0);
            && r.h.chip == s.h.chip && r.h.drains == s.h.drains
            && (r.h.stray ==> s.h.stray || e)
            && (!r.h.timedOut ==> (r.h.stray <==> s.h.stray || e))
  {
    hide RecvDynamicHw, RecvStandardHw, RecvStarted, Poll, PollOk;
    var h, m, last := IrqDis(s.h, {TxHalf, TxEmpty}), TxMsg(s.d), s.d.nmsgs == 1;
    RecvHwStray(h, m, last);
    RecvHwStray(Poll(h), m, last);
    WaitFields(h);
    GivesUpTimesOut(s.h, h);
    RecvStartedFrame(s.d, RecvDynamicHw(h, m, last));
    RecvStartedFrame(s.d, RecvStandardHw(h, m));
    RecvStartedFrame(s.d, RecvStandardHw(Poll(h), m));
  }

  lemma GivesUpTimesOut(h: Hw, g: Hw)
    requires g.isr == h.isr && g.polls == h.polls
    ensures !PollOk(h) ==> Poll(g).timedOut
  {
  }

  lemma RecvHwStray(h: Hw, m: Msg, last: bool)
    ensures var r := RecvStandardHw(h, m);
            r.chip == h.chip && r.drains == h.drains && (r.stray <==> h.stray || m.len == 0)
    ensures var r := RecvDynamicHw(h, m, last);
            r.chip == h.chip && r.drains == h.drains && (r.stray <==> h.stray || (m.len == 0 && h.chip.emptyRead > 0))
  {
    hide PlanRead, FirstCr, AddrByte, OrBit, IrqClrEn;
    RecvHwFrame(h, m, last);
    var mask := {RxFull, TxError};
    ClrEnFields(h, mask);
    ClrEnFields(RequestRead(IrqClrEn(h, mask), m, last), {Bnb});
    PlanFrame(h, m);
    ClrEnFields(PlanRead(h, m), mask);
  }

  lemma StartRecvKeepsAstray(s: State)
    ensures s.h.timedOut ==> StartRecv(s).h.timedOut
    ensures s.h.stray ==> StartRecv(s).h.stray
    ensures s.d.dynamic ==> StartRecv(s).h.timedOut == s.h.timedOut
  {
    hide RecvDynamicHw, RecvStandardHw, RecvStarted, Poll, PollOk;
    var h, m, last := IrqDis(s.h, {TxHalf, TxEmpty}), TxMsg(s.d), s.d.nmsgs == 1;
    RecvHwKeepsAstray(h, m, last);
    RecvHwKeepsAstray(Poll(h), m, last);
    WaitFields(h);
    RecvStartedFrame(s.d, RecvDynamicHw(h, m, last));
    RecvStartedFrame(s.d, RecvStandardHw(h, m));
    RecvStartedFrame(s.d, RecvStandardHw(Poll(h), m));
  }

  lemma RecvHwKeepsAstray(h: Hw, m: Msg, last: bool)
    ensures var r := RecvStandardHw(h, m); r.timedOut == h.timedOut && (h.stray ==> r.stray)
    ensures var r := RecvDynamicHw(h, m, last); r.timedOut == h.timedOut && (h.stray ==> r.stray)
  {
    hide RecvStandardHw, RecvDynamicHw;
    RecvHwFrame(h, m, last);
    RecvHwStray(h, m, last);
  }

  lemma StartSendKeepsAstray(s: State)
    ensures s.h.timedOut ==> StartSend(s).h.timedOut
    ensures StartSend(s).h.chip == s.h.chip && StartSend(s).h.drains == s.h.drains
    ensures StartSend(s).h.stray == s.h.stray
    ensures s.d.dynamic ==> StartSend(s).h.timedOut == s.h.timedOut
  {
    hide FillState, SendDynamicHw, SendStandardHw, SendStandardEndHw, Poll, PollOk;
    var h, m, last := AfterWait(s), TxMsg(s.d), s.d.nmsgs == 1;
    WaitFields(s.h);
    SendHwFrame(s.h, m, last, false);
    SendHwFrame(h, m, last, false);
    var t, u := State(s.d, SendDynamicHw(s.h, m, last)), State(s.d, SendStandardHw(h, m));
    FillKeepsTimeOut(t);
    FillKeepsTimeOut(u);
    FillFrame(t);
    FillFrame(u);
    SendHwFrame(FillState(u).h, m, last, Msms in h.cr);
  }

  lemma FillKeepsTimeOut(s: State)
    ensures s.h.timedOut ==> FillState(s).h.timedOut
    ensures s.d.dynamic ==> FillState(s).h.timedOut == s.h.timedOut
  {
    var n := Min(TxFifoSpace(s.h), TxMsg(s.d).len - s.d.txPos);
    FillBytesKeepTimeOut(JobOf(s.d), TxView(s), n);
    if s.d.dynamic {
      FillNeedsNoWait(JobOf(s.d), TxView(s), n);
    }
  }

  lemma {:induction false} FillBytesKeepTimeOut(j: TxJob, x: TxIo, n: int)
    ensures x.timedOut ==> FillBytes(j, x, n).timedOut
    decreases n
  {
    if n > 0 && !FillGivesUp(j, x) {
      FillBytesKeepTimeOut(j, FillByte(j, x), n - 1);
    }
  }

  lemma TxPartCases(p: Pass, pend: set<Irq>)
    ensures var q := TxPart(p, pend).s;
            || q == p.s || q == FillState(p.s) || q == State(Advance(p.s.d), p.s.h)
            || q == State(p.s.d, IrqDis(p.s.h, {TxHalf}))
  {
    hide FillState, Advance, IrqDis;
  }

  lemma TxPartKeepsAstray(p: Pass, pend: set<Irq>)
    ensures var q := TxPart(p, pend).s;
            && (p.s.h.timedOut ==> q.h.timedOut)
            && (p.s.d.dynamic ==> q.h.timedOut == p.s.h.timedOut)
            && q.h.stray == p.s.h.stray && q.d.dynamic == p.s.d.dynamic
  {
    hide FillState, TxPart;
    TxPartCases(p, pend);
    FillKeepsTimeOut(p.s);
    FillFrame(p.s);
  }

  lemma RxPartKeepsAstray(s: State, pend: set<Irq>, clr: set<Irq>)
    ensures var p := RxPart(s, pend, clr);
            && p.s.h.timedOut == s.h.timedOut && p.s.h.stray == s.h.stray
            && p.s.d.dynamic == s.d.dynamic
  {
    hide ReadRx, TrimLen;
  }

  /** The handler never takes back a time-out, and in dynamic mode has none. */
  lemma BranchesKeepAstray(s: State, pend: set<Irq>, clr: set<Irq>)
    ensures var p := Branches(s, pend, clr);
            && (s.h.timedOut ==> p.s.h.timedOut) && p.s.h.stray == s.h.stray
            && (s.d.dynamic ==> p.s.h.timedOut == s.h.timedOut) && p.s.d.dynamic == s.d.dynamic
  {
    hide RxPart, TxPart, BnbPart;
    RxPartKeepsAstray(s, pend, clr);
    var p1 := RxPart(s, pend, clr);
    TxPartKeepsAstray(p1, pend);
    BnbFrame(TxPart(p1, pend), pend);
    BnbKeepsMode(TxPart(p1, pend), pend);
  }

  lemma BnbKeepsMode(p: Pass, pend: set<Irq>)
    ensures BnbPart(p, pend).s.d.dynamic == p.s.d.dynamic
  {
  }

  lemma ProcessKeepsAstray(s: State, clkOk: bool)
    ensures Astray(s.h) ==> Astray(Process(s, clkOk).h)
    ensures s.h.timedOut ==> Process(s, clkOk).h.timedOut
    ensures s.h.stray ==> Process(s, clkOk).h.stray
    ensures s.d.dynamic ==> Process(s, clkOk).h.timedOut == s.h.timedOut
  {
    hide Branches, StartNext, NoRxFullBit, IsErrorPend, EarlyRxDone, ReinitHw, ClearWord;
    var pend := Pend(s.h);
    BranchesKeepAstray(s, pend, {});
    BranchesKeepAstray(s, pend + {RxFull}, {TxError});
    ReinitFrame(s.h, clkOk);
    var p := ProcessPass(s, clkOk);
    var s1 := State(p.s.d, WriteIisr(p.s.h, ClearWord(p, NoRxFullBit(s))));
    StartNextKeepsAstray(s1);
    if s.d.dynamic {
      DynamicNeverWaits(s1);
    }
  }

  lemma DynamicNeverWaits(s: State)
    requires s.d.dynamic
    ensures StartNext(s).h.timedOut == s.h.timedOut
  {
    hide StartRecv, StartSend;
    StartRecvKeepsAstray(Opened(s));
    StartSendKeepsAstray(Opened(s));
  }

  /** One run of the interrupt handler keeps the invariant. */
  lemma ProcessKeepsInv(s: State, clkOk: bool)
    requires Inv(s)
    ensures Inv(Process(s, clkOk))
  {
    hide Process, Cursor, HalfOff, Running, Clean, Settled;
    ProcessKeepsCursor(s, clkOk);
    ProcessKeepsHalfOff(s, clkOk);
    ProcessKeepsAstray(s, clkOk);
    if !Astray(s.h) {
      if s.d.tx.None? {
        assert Cursor(s) && s.d.rx.None? by { IdleHasNoRx(s); }
        IdleProcess(s, clkOk);
      } else {
        BusyProcess(s, clkOk);
      }
    }
  }

  lemma IdleHasNoRx(s: State)
    requires Cursor(s) && s.d.tx.None?
    ensures s.d.rx.None?
  {
  }

  /** An interrupt outside a transfer changes nothing that success was about. */
  lemma IdleProcess(s: State, clkOk: bool)
    requires s.d.tx.None? && s.d.rx.None? && Settled(s) && Clean(s)
    ensures Process(s, clkOk).d.tx.None?
    ensures Settled(Process(s, clkOk)) && Clean(Process(s, clkOk))
  {
    hide Process;
    IdleProcessFrame(s, clkOk);
  }

  /** What an interrupt outside a transfer keeps. */
  predicate IdleFrame(s: State, r: State) {
    && r.d == s.d && r.h.logs == s.h.logs && r.h.dtr == s.h.dtr
    && r.h.underflow == s.h.underflow && r.h.overflow == s.h.overflow
    && r.h.timedOut == s.h.timedOut && r.h.stray == s.h.stray
    && (s.h.bus == Idle ==> r.h.bus == Idle)
  }

  lemma IdleProcessFrame(s: State, clkOk: bool)
    requires s.d.tx.None? && s.d.rx.None?
    ensures IdleFrame(s, Process(s, clkOk))
  {
    hide Branches, Finish, ErrorPass, EarlyRxDone, IdleFrame;
    NotEarly(s, Pend(s.h));
    IdleFinish(s, Branches(s, Pend(s.h), {}), {});
    IdleError(s, clkOk);
  }

  lemma NotEarly(s: State, pend: set<Irq>)
    ensures s.d.rx.None? ==> !EarlyRxDone(s, pend)
  {
  }

  lemma IdleError(s: State, clkOk: bool)
    requires s.d.tx.None? && s.d.rx.None?
    ensures IdleFrame(s, Finish(ErrorPass(s, clkOk), false))
  {
    hide ReinitHw;
    ReinitFrame(s.h, clkOk);
  }

  lemma IdleFinish(s: State, p: Pass, clr: set<Irq>)
    requires s.d.tx.None? && s.d.rx.None? && p == Branches(s, Pend(s.h), clr)
    ensures IdleFrame(s, Finish(p, false))
  {
    hide Branches;
    IdleBranches(s, Pend(s.h), clr);
  }

  lemma IdleBranches(s: State, pend: set<Irq>, clr: set<Irq>)
    requires s.d.tx.None? && s.d.rx.None?
    ensures var p := Branches(s, pend, clr);
            && p.s.d == s.d && p.s.h == s.h.(rxFifo := p.s.h.rxFifo, ier := p.s.h.ier, drains := p.s.h.drains)
            && !p.more && p.wake.None?
  {
    var p1 := RxPart(s, pend, clr);
    DrainFrame(s.h);
    hide DrainRx;
    assert p1.s == State(s.d, s.h.(rxFifo := p1.s.h.rxFifo, drains := p1.s.h.drains)) && !p1.more && p1.wake.None?;
    var p2 := TxPart(p1, pend);
    assert p2.s == p1.s && !p2.more && p2.wake.None?;
  }

  /** What the handler finds pending fits the message it works on. */
  lemma PendFits(s: State)
    requires Inv(s) && !Astray(s.h) && s.d.tx.Some?
    ensures var i, pend := s.d.tx.value, Pend(s.h);
            && Running(s, i) && Armed(s) && i < |s.d.sent|
            && PendOk(s, i, pend)
            && (EarlyRxDone(s, pend) ==> PendOk(s, i, pend + {RxFull}))
            && (RxFull in s.h.isr && s.d.rx.Some? ==> RxFull in pend)
  {
    hide Reading, History, EncodeUpTo, WordsUpTo, Encode;
    assert TxMsg(s.d).rd == s.d.sent[s.d.tx.value].rd;
    if !s.d.dynamic && s.d.nmsgs == 1 {
      LastHasHalfOff(s);
    }
  }

  lemma BusyProcess(s: State, clkOk: bool)
    requires Inv(s) && !Astray(s.h) && s.d.tx.Some?
    ensures var r := Process(s, clkOk); !Astray(r.h) && Cursor(r) ==> Data(r)
  {
    hide Branches, Finish, Clean, Receiving, Received, Writing, PendOk, Armed, HalfOff;
    CursorIsQuiet(s);
    PassKeepsCursor(s, clkOk);
    PendFits(s);
    var p := ProcessPass(s, clkOk);
    if !IsErrorPend(Pend(s.h)) {
      BusyBranches(s, p, Pend(s.h), {}, false);
    } else if EarlyRxDone(s, Pend(s.h)) {
      BusyBranches(s, p, Pend(s.h) + {RxFull}, {TxError}, RxFull !in s.h.isr);
    } else {
      ErrorEnds(s, clkOk);
    }
  }

  /** The error branch ends the transfer, and not in success. */
  lemma ErrorEnds(s: State, clkOk: bool)
    requires Clean(s) && s.d.tx.Some?
    ensures Data(Finish(ErrorPass(s, clkOk), false))
  {
    hide Running, Encode, ReinitHw;
    ReinitFrame(s.h, clkOk);
  }

  /** The bits handed to the branches, the clear word they start from, and whether
      RX_FULL must not be toggled. */
  predicate Entry(s: State, pend: set<Irq>, clr: set<Irq>, noRxFull: bool) {
    && TxEmpty !in clr
    && (RxFull in pend ==> noRxFull == (RxFull !in s.h.isr))
    && (RxFull !in pend ==> !noRxFull && clr == {} && (s.d.rx.Some? ==> RxFull !in s.h.isr))
  }

  lemma BusyBranches(s: State, p: Pass, pend: set<Irq>, clr: set<Irq>, noRxFull: bool)
    requires Inv(s) && !Astray(s.h) && s.d.tx.Some?
    requires p == Branches(s, pend, clr)
    requires s.d.tx.value < |s.d.sent| && Running(s, s.d.tx.value) && PendOk(s, s.d.tx.value, pend)
    requires Entry(s, pend, clr, noRxFull)
    requires PassCursor(s, p.(s := p.s.(h := s.h)))
    ensures var r := Finish(p, noRxFull); !Astray(r.h) && Cursor(r) ==> Data(r)
  {
    hide Branches, Finish, Running, Clean, PendOk, Armed, PassData, PassIrqs, HalfOff, Cursor, Entry,
         PassCursor;
    BranchesData(s, s.d.tx.value, pend, clr);
    BusyIsArmed(s);
    assert TxEmpty !in clr by { EntryFields(s, pend, clr, noRxFull); }
    StaysHonest(s, s.d.tx.value, pend, clr, noRxFull);
    BusyFinish(s, p, s.d.tx.value, pend, clr, noRxFull);
  }

  lemma EntryFields(s: State, pend: set<Irq>, clr: set<Irq>, noRxFull: bool)
    requires Entry(s, pend, clr, noRxFull)
    ensures TxEmpty !in clr
  {
  }

  lemma BusyIsArmed(s: State)
    requires Inv(s) && !Astray(s.h) && s.d.tx.Some?
    ensures Armed(s) && TxHonest(s.h)
    ensures s.d.nmsgs == 1 || s.d.dynamic ==> Bnb in s.h.ier
  {
    hide Running, Clean;
  }

  lemma BusyFinish(s: State, p: Pass, i: nat, pend: set<Irq>, clr: set<Irq>, noRxFull: bool)
    requires Inv(s) && !Astray(s.h) && s.d.tx == Some(i)
    requires PassData(s, p, i) && PassIrqs(s, p, pend, clr) && Entry(s, pend, clr, noRxFull)
    requires PassCursor(s, p.(s := p.s.(h := s.h)))
    requires p.wake.None? && !p.more && !p.s.h.timedOut ==>
               TxHonest(WriteIisr(p.s.h, ClearWord(p, noRxFull)))
    ensures var r := Finish(p, noRxFull); !Astray(r.h) && Cursor(r) ==> Data(r)
  {
    hide Running, Clean, Settled, Boundary, AllDone, HalfOff;
    if !p.s.h.timedOut && !p.more && p.wake.None? && p.s.d.rx.Some? {
      FinishArms(s, p, pend, clr, noRxFull);
    }
    FinishData(s, p, i, noRxFull);
    FinishTx(s, p, i, noRxFull);
  }

  lemma FinishTx(s: State, p: Pass, i: nat, noRxFull: bool)
    requires PassCursor(s, p.(s := p.s.(h := s.h))) && s.d.tx == Some(i)
    ensures var r := Finish(p, noRxFull);
            r.d.tx == if p.wake.Some? then None else if p.more then Some(i + 1) else Some(i)
  {
    hide StartNext;
    StartNextFrame(State(p.s.d, WriteIisr(p.s.h, ClearWord(p, noRxFull))));
  }

  /** RX_FULL is left clear when its branch has run, and untouched otherwise. */
  lemma FinishArms(s: State, p: Pass, pend: set<Irq>, clr: set<Irq>, noRxFull: bool)
    requires Armed(s) && PassIrqs(s, p, pend, clr) && Entry(s, pend, clr, noRxFull)
    requires !p.s.h.timedOut && p.wake.None? && p.s.d.rx.Some?
    ensures var h := WriteIisr(p.s.h, ClearWord(p, noRxFull)); RxFull in h.ier && TxError in h.ier && RxFull !in h.isr
  {
  }

  // ----- Runs -----

  lemma StepKeepsInv(s: State, e: Event, clkOk: bool)
    requires Inv(s)
    ensures Inv(Step(s, e, clkOk))
  {
    hide Inv, Process, Clock, Latch, Drain;
    match e
    case ByteIn(b) => ClockKeepsInv(s, b);
    case IrqBits(bits) => LatchKeepsInv(s, bits);
    case TxLevel(v) => DrainKeepsInv(s, v);
    case Interrupt => ProcessKeepsInv(s, clkOk);
  }

  lemma {:induction false} RunKeepsInv(s: State, events: seq<Event>, clkOk: bool)
    requires Inv(s)
    ensures Inv(Run(s, events, clkOk))
    decreases |events|
  {
    if events != [] {
      StepKeepsInv(s, events[0], clkOk);
      RunKeepsInv(Step(s, events[0], clkOk), events[1..], clkOk);
    }
  }

  /** A start that is not refused establishes the invariant, provided that no
      block-read flag is left over from an earlier transfer. */
  lemma StartXferEstablishes(s: State, msgs: seq<Msg>, c: Config, stuck: (bool, bool))
    requires msgs != [] && StartXferRet(s, c, stuck).Ok? && !s.d.blockRead
    requires ValidTransfer(msgs, UsesDynamic(msgs, c.readBroken))
    ensures Inv(StartXfer(s, msgs, c, stuck))
  {
    hide StartNext, ReinitHw, ClearHistory, Submit, Boundary, HalfOff, Cursor, Data;
    StartXferSetsCursor(s, msgs, c, stuck);
    BlockReadsAreReads(msgs, UsesDynamic(msgs, c.readBroken));
    StartXferSetsHalfOff(s, msgs, c, stuck);
    var h1 := FreedHw(s.h, c, stuck);
    var s2 := State(Submit(s.d, msgs, c.readBroken), ReinitHw(ClearHistory(h1), c.clkOk));
    SubmittedIsBoundary(s.d, h1, msgs, c);
    GoesOnFrom(s2);
    assert StartXfer(s, msgs, c, stuck) == StartNext(s2);
  }

  lemma BlockReadsAreReads(msgs: seq<Msg>, dynamic: bool)
    requires ValidTransfer(msgs, dynamic)
    ensures forall i :: 0 <= i < |msgs| && msgs[i].recvLen ==> msgs[i].rd
  {
    forall i | 0 <= i < |msgs| && msgs[i].recvLen
      ensures msgs[i].rd
    {
      assert ValidAt(msgs, dynamic, i);
    }
  }

  lemma SubmittedIsBoundary(d: Drv, h: Hw, msgs: seq<Msg>, c: Config)
    requires msgs != [] && !d.blockRead && ReinitRet(ClearHistory(h), c.clkOk).Ok?
    requires ValidTransfer(msgs, UsesDynamic(msgs, c.readBroken))
    ensures var s := State(Submit(d, msgs, c.readBroken), ReinitHw(ClearHistory(h), c.clkOk));
            Boundary(s, 0) && !Astray(s.h)
  {
    hide UsesDynamic, ValidAt;
  }

  lemma GoesOnFrom(s: State)
    requires Boundary(s, 0)
    ensures var r := StartNext(s); !Astray(r.h) ==> Data(r)
  {
    hide StartNext, Running, Clean, Armed;
    StartNextBegins(s, 0);
    StartNextFrame(s);
    BoundaryTx(s, 0);
    if !Astray(StartNext(s).h) {
      RunningIsClean(StartNext(s), 0);
    }
  }

  lemma BoundaryTx(s: State, i: nat)
    requires Boundary(s, i)
    ensures s.d.tx == Some(i) && i < |s.d.sent| && s.d.msgs[i] == s.d.sent[i]
    ensures |s.d.msgs| == |s.d.sent| && TxMsg(s.d) == s.d.sent[i] && |s.h.logs| == i
  {
  }

  // ----- When the handler warns -----

  /** No handler run finds the bus free while another message is to follow. */
  predicate HeldBus(s: State, events: seq<Event>, clkOk: bool)
    decreases |events|
  {
    events == [] || (&& (events[0].Interrupt? && s.d.nmsgs > 1 ==> Bnb !in s.h.isr)
                     && HeldBus(Step(s, events[0], clkOk), events[1..], clkOk))
  }

  lemma BranchesWakeOnBnb(s: State, pend: set<Irq>, clr: set<Irq>)
    ensures Branches(s, pend, clr).wake.Some? ==> Bnb in pend
  {
    hide ReadRx, FillState, TrimLen;
  }

  /** The handler warns only if it finds the bus free with another message to follow. */
  lemma ProcessWarns(s: State, clkOk: bool)
    requires Cursor(s)
    ensures Process(s, clkOk).d.warned && !s.d.warned ==> s.d.nmsgs > 1 && Bnb in Pend(s.h)
  {
    hide Branches, StartNext, NoRxFullBit, IsErrorPend, EarlyRxDone, ReinitHw, ClearWord, Cursor;
    CursorIsQuiet(s);
    PassKeepsCursor(s, clkOk);
    BranchesWakeOnBnb(s, Pend(s.h), {});
    BranchesWakeOnBnb(s, Pend(s.h) + {RxFull}, {TxError});
    var p := ProcessPass(s, clkOk);
    StartNextFrame(State(p.s.d, WriteIisr(p.s.h, ClearWord(p, NoRxFullBit(s)))));
  }

  lemma {:induction false} HeldBusNeverWarns(s: State, events: seq<Event>, clkOk: bool)
    requires Cursor(s) && !s.d.warned && HeldBus(s, events, clkOk)
    ensures !Run(s, events, clkOk).d.warned
    decreases |events|
  {
    hide Process, Cursor;
    if events != [] {
      StepKeepsCursor(s, events[0], clkOk);
      if events[0].Interrupt? {
        ProcessWarns(s, clkOk);
      }
      HeldBusNeverWarns(Step(s, events[0], clkOk), events[1..], clkOk);
    }
  }

  // ----- Main results -----

  /** Success is sound: if xiic_xfer returns num after any run of byte arrivals,
      interrupt bits, FIFO levels and handler calls, then every read is in its
      buffer, every word of every message was written, in order, and nothing else
      was; if the transfer has not gone astray, and either the bus was never found free
      while another message was to follow, or at least the handler's own warning, that
      it is both going on and waking up, has not fired. */
  lemma SuccessIsSound(s: State, msgs: seq<Msg>, c: Config, stuck: (bool, bool),
                       events: seq<Event>)
    requires msgs != [] && StartXferRet(s, c, stuck).Ok? && !s.d.blockRead
    requires ValidTransfer(msgs, UsesDynamic(msgs, c.readBroken))
    ensures var r := Run(StartXfer(s, msgs, c, stuck), events, c.clkOk);
            var held := HeldBus(StartXfer(s, msgs, c, stuck), events, c.clkOk);
            && (held ==> !r.d.warned)
            && (XferRet(r).Ok? && !Astray(r.h) && (held || !r.d.warned) ==>
                  AllDone(r) && r.d.sent == msgs && XferRet(r) == Ok(|msgs|))
  {
    hide Run, StartXfer, HeldBus;
    var s1 := StartXfer(s, msgs, c, stuck);
    StartXferEstablishes(s, msgs, c, stuck);
    StartXferSetsCursor(s, msgs, c, stuck);
    RunKeepsInv(s1, events, c.clkOk);
    RunKeepsCursor(s1, events, c.clkOk);
    CursorNotWarned(s1);
    if HeldBus(s1, events, c.clkOk) {
      HeldBusNeverWarns(s1, events, c.clkOk);
    }
  }

  lemma CursorNotWarned(s: State)
    requires Cursor(s) && s.d.tx.Some?
    ensures !s.d.warned
  {
  }

  /** In every state of every run, whatever is pending and however full the FIFOs
      are: the words written are a prefix of the encoding of the message list, the
      TX FIFO was never written while full, the RX FIFO never read while empty, and
      no buffer was overrun. */
  lemma RunsAreClean(s: State, msgs: seq<Msg>, c: Config, stuck: (bool, bool),
                     events: seq<Event>)
    requires msgs != [] && StartXferRet(s, c, stuck).Ok? && !s.d.blockRead
    requires ValidTransfer(msgs, UsesDynamic(msgs, c.readBroken))
    ensures var r := Run(StartXfer(s, msgs, c, stuck), events, c.clkOk);
            !Astray(r.h) ==>
              && !r.h.underflow && !r.h.overflow && !r.d.overrun
              && r.h.dtr <= Encode(msgs, UsesDynamic(msgs, c.readBroken))
  {
    StartXferEstablishes(s, msgs, c, stuck);
    StartXferSetsCursor(s, msgs, c, stuck);
    RunKeepsInv(StartXfer(s, msgs, c, stuck), events, c.clkOk);
    RunKeepsCursor(StartXfer(s, msgs, c, stuck), events, c.clkOk);
  }
}
