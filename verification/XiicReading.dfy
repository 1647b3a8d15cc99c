/** One read, from the first byte on the bus to the last byte in the buffer: the
    state a read may be in between two interrupts, that the bus and the handler
    both keep it, and what is in the buffer when the handler lets go of it. */
module XiicReading {
  import opened XiicDevice
  import opened XiicSpec

  // ----- The messages a caller may submit -----

  /** What the I2C core demands of a message: the buffer holds it, and a block
      read starts with a length of 1, or 2 with PEC, and has room for 32 more. */
  predicate ValidMsg(m: Msg) {
    && m.len + (if m.recvLen then 32 else 0) <= |m.buf|
    && (m.recvLen ==> m.rd && 1 <= m.len <= 2)
  }

  // ----- What a finished read looks like -----

  /** The length the caller sees: a block read grows by the count the slave sent. */
  function FinalLen(o: Msg, bytes: seq<Byte>): int {
    if o.recvLen && bytes != [] then o.len + bytes[0] else o.len
  }

  /** The bytes that must be clocked in to end the read cleanly. */
  function BytesClocked(o: Msg, len: int): int {
    if o.recvLen && len < 3 then 3 else len
  }

  /** Only the final byte is not acknowledged, and only once the read has ended. */
  predicate NackShape(nacks: seq<bool>, ended: bool) {
    forall j :: 0 <= j < |nacks| ==> (nacks[j] <==> ended && j == |nacks| - 1)
  }

  predicate Framed(o: Msg, m: Msg) {
    m.addr == o.addr && m.rd == o.rd && |m.buf| == |o.buf|
  }

  /** The buffer holds exactly what the slave sent, the length is right, no byte
      was clocked beyond what is needed, and the last one alone was NACKed. */
  predicate ReadDone(o: Msg, m: Msg, log: ReadLog) {
    && Framed(o, m)
    && (o.recvLen ==> log.bytes != [] && log.bytes[0] <= 32)
    && m.len == FinalLen(o, log.bytes)
    && |log.bytes| == |log.nacks| == BytesClocked(o, m.len)
    && m.len <= |m.buf|
    && m.buf[..m.len] == log.bytes[..m.len]
    && NackShape(log.nacks, true)
  }

  /** A block read whose count is out of range. */
  predicate ReadRefused(o: Msg, m: Msg, log: ReadLog) {
    && Framed(o, m)
    && o.recvLen && m.len == 3
    && |log.bytes| == |log.nacks| == 3 && log.bytes[0] > 32
    && NackShape(log.nacks, true)
  }

  // ----- A read in progress -----

  predicate AtWatermark(x: RxIo) {
    |x.fifo| == x.rfd % 16 + 1
  }

  /** Dynamic mode: RFD asks for the rest of the message, 16 bytes at a time. */
  predicate DynamicPhase(o: Msg, x: RxIo, bus: BusRead) {
    && !x.m.recvLen && !o.recvLen && x.m.len == o.len <= 255
    && x.actualLen == 0 && !x.blockRead && NoAck !in x.cr
    && x.rfd == (if Left(x) > 0 then Min(Left(x), 16) - 1 else 0)
    && |x.fifo| <= x.rfd + 1
    && (match bus
        case Idle => |x.fifo| == Left(x)
        case Std => false
        case Dyn(left) => left > 0 && |x.fifo| + left == Left(x))
  }

  /** Standard mode, block read, count byte not read yet. */
  predicate PendingPhase(o: Msg, x: RxIo, bus: BusRead) {
    && x.m == o && o.recvLen && x.pos == 0 && x.rfd == 0
    && NoAck !in x.cr && bus == Std && |x.fifo| <= 1
    && x.actualLen == 0 && !x.blockRead
  }

  /** What a block read has learned from its count byte. */
  predicate LengthSettled(o: Msg, x: RxIo, bytes: seq<Byte>) {
    if !o.recvLen then
      x.m.len == o.len && x.actualLen == 0 && !x.blockRead
    else
      && x.pos >= 1 && bytes != []
      && (x.blockRead <==> bytes[0] <= 32)
      && x.m.len == (if x.blockRead then BytesClocked(o, FinalLen(o, bytes)) else 3)
      && x.actualLen == (if x.blockRead && FinalLen(o, bytes) < 3
                         then FinalLen(o, bytes) else 0)
  }

  /** More than the last byte is missing, and the watermark cannot let it through:
      RFD is 15 with at least 17 bytes outstanding, or else two short of them. */
  predicate OpenPhase(x: RxIo, bus: BusRead) {
    && bus == Std && NoAck !in x.cr && |x.fifo| <= x.rfd + 1
    && ((x.rfd == 15 && Left(x) >= 17) || (x.rfd == Left(x) - 2 && 2 <= Left(x) <= 16))
  }

  /** NO_ACK is set; exactly one byte is still to come, or none. */
  predicate ClosingPhase(x: RxIo, bus: BusRead) {
    && NoAck in x.cr && x.rfd + 1 == Left(x) <= 16
    && ((bus == Std && |x.fifo| == x.rfd) || (bus == Idle && |x.fifo| == x.rfd + 1))
  }

  predicate StandardPhase(o: Msg, x: RxIo, bytes: seq<Byte>, bus: BusRead) {
    if x.m.recvLen then PendingPhase(o, x, bus)
    else LengthSettled(o, x, bytes) && (OpenPhase(x, bus) || ClosingPhase(x, bus))
  }

  predicate Reading(o: Msg, x: RxIo, log: ReadLog, bus: BusRead, dynamic: bool) {
    && Framed(o, x.m) && ValidMsg(o)
    && x.pos <= x.m.len <= |x.m.buf|
    && !x.underflow && !x.overrun
    && |log.nacks| == |log.bytes|
    && log.bytes == x.m.buf[..x.pos] + x.fifo
    && NackShape(log.nacks, bus.Idle?)
    && if dynamic then DynamicPhase(o, x, bus) else StandardPhase(o, x, log.bytes, bus)
  }

  /** The state in which a finished read is left. */
  predicate ReadLeft(o: Msg, x: RxIo, log: ReadLog, bus: BusRead) {
    && x.fifo == [] && bus == Idle && NoAck !in x.cr && !x.underflow && !x.overrun
    && (if o.recvLen && !x.blockRead then ReadRefused(o, x.m, log) else ReadDone(o, x.m, log))
    && (x.blockRead ==> o.recvLen)
  }

  // ----- Popping n bytes -----

  function Drained(x: RxIo, n: nat): RxIo
    requires n <= |x.fifo| && x.pos + n <= |x.m.buf|
  {
    x.(m := x.m.(buf := x.m.buf[..x.pos] + x.fifo[..n] + x.m.buf[x.pos + n..]),
       pos := x.pos + n, fifo := x.fifo[n..])
  }

  /** If the bytes are there and there is room, the popping loop moves exactly
      the first n bytes of the FIFO to the end of what has been read. */
  lemma {:induction false} ReadBytesDrains(x: RxIo, n: nat)
    requires n <= |x.fifo| && x.pos + n <= |x.m.buf|
    ensures ReadBytes(x, n) == Drained(x, n)
    decreases n
  {
    if n == 0 {
      assert x.m.buf[..x.pos] + x.fifo[..0] + x.m.buf[x.pos + 0..] == x.m.buf;
    } else {
      hide ReadByte, Drained;
      DrainOne(x, n);
      ReadBytesDrains(ReadByte(x), n - 1);
    }
  }

  lemma DrainOne(x: RxIo, n: nat)
    requires 0 < n <= |x.fifo| && x.pos + n <= |x.m.buf|
    ensures var y := ReadByte(x);
            && |y.fifo| == |x.fifo| - 1 && y.pos == x.pos + 1 && |y.m.buf| == |x.m.buf|
            && Drained(y, n - 1) == Drained(x, n)
  {
    var y := ReadByte(x);
    Splice(x.m.buf, x.pos, x.fifo, n);
    assert y.fifo[n - 1..] == x.fifo[n..];
  }

  /** Storing the first byte and then the n - 1 that follow is storing n bytes. */
  lemma Splice(buf: seq<Byte>, pos: nat, fifo: seq<Byte>, n: nat)
    requires 0 < n <= |fifo| && pos + n <= |buf|
    ensures var one := buf[pos := fifo[0]];
            one[..pos + 1] + fifo[1..][..n - 1] + one[pos + 1 + (n - 1)..]
            == buf[..pos] + fifo[..n] + buf[pos + n..]
  {
    var one := buf[pos := fifo[0]];
    assert one[..pos + 1] == buf[..pos] + [fifo[0]];
    assert [fifo[0]] + fifo[1..][..n - 1] == fifo[..n];
    assert one[pos + n..] == buf[pos + n..];
    assert buf[..pos] + [fifo[0]] + fifo[1..][..n - 1]
        == buf[..pos] + ([fifo[0]] + fifo[1..][..n - 1]);
  }

  lemma DrainedKeepsLog(x: RxIo, n: nat)
    requires n <= |x.fifo| && x.pos + n <= |x.m.buf|
    ensures var y := Drained(x, n);
            && |y.m.buf| == |x.m.buf|
            && y.m.buf[..y.pos] + y.fifo == x.m.buf[..x.pos] + x.fifo
            && (n == |x.fifo| ==> y.m.buf[..y.pos] == x.m.buf[..x.pos] + x.fifo)
  {
    var y := Drained(x, n);
    assert y.m.buf[..y.pos] == x.m.buf[..x.pos] + x.fifo[..n];
    assert x.fifo == x.fifo[..n] + x.fifo[n..];
  }

  // ----- The bus keeps a read in order -----

  /** The effect of one byte on a read in progress. */
  lemma ClockKeepsReading(o: Msg, x: RxIo, log: ReadLog, bus: BusRead, dynamic: bool, b: Byte,
                          nack: bool)
    requires Reading(o, x, log, bus, dynamic)
    requires bus != Idle && |x.fifo| < x.rfd % 16 + 1
    requires nack == (if bus.Std? then NoAck in x.cr else bus.left <= 1)
    ensures Reading(o, x.(fifo := x.fifo + [b]), ReadLog(log.bytes + [b], log.nacks + [nack]),
                    if nack then Idle else if bus.Dyn? then Dyn(bus.left - 1) else bus, dynamic)
  {
    assert x.m.buf[..x.pos] + (x.fifo + [b]) == log.bytes + [b];
    if !dynamic && !x.m.recvLen && o.recvLen {
      assert (log.bytes + [b])[0] == log.bytes[0];
    }
  }

  // ----- The handler keeps a read in order, or ends it -----

  /** When the read branch is entered for a read in progress: RX_FULL has latched,
      or the FIFO holds all that is left. */
  predicate Ripe(x: RxIo) {
    AtWatermark(x) || (x.fifo != [] && |x.fifo| >= Left(x) > 0)
  }

  /** No underflow and no overrun: the chunk taken out is never more than the
      FIFO holds, and never more than the message wants. */
  function Chunk(x: RxIo, dynamic: bool): int {
    var avail := Available(x);
    var rem := Left(x) - avail;
    if dynamic then avail
    else if x.m.recvLen then 1
    else if rem > 16 then avail
    else if rem > 1 then rem - 1
    else if rem == 1 then 1
    else avail
  }

  lemma ChunkFits(o: Msg, x: RxIo, log: ReadLog, bus: BusRead, dynamic: bool)
    requires Reading(o, x, log, bus, dynamic) && Ripe(x)
    ensures 1 <= Chunk(x, dynamic) <= |x.fifo|
    ensures Chunk(x, dynamic) <= Left(x)
    ensures x.pos + Chunk(x, dynamic) <= |x.m.buf|
  {
  }

  /** Dynamic mode empties the FIFO and asks for the next min(remaining, 16) bytes; with
      none remaining the number wraps around. */
  lemma DynamicChunk(x: RxIo, last: bool)
    requires 0 < |x.fifo| <= Left(x)
    requires x.pos + |x.fifo| <= |x.m.buf|
    ensures var y := ReadRx(x, true, last);
            && y == Drained(x, |x.fifo|).(rfd := y.rfd)
            && Left(y) == Left(x) - |x.fifo|
            && y.rfd == (if Left(y) % 256 > 0 then Min(Left(y) % 256, 16) - 1 else 255)
  {
    var d := Drained(x, |x.fifo|);
    ReadBytesDrains(x, |x.fifo|);
    assert ReadBytes(x, Available(x)) == d;
    assert 0 <= U8(Left(d)) <= 255;
  }

  lemma {:induction false} EmptyPops(x: RxIo, n: int)
    requires n > 0 && x.fifo == []
    ensures ReadBytes(x, n).underflow && ReadBytes(x, n).pos == x.pos + n
    decreases n
  {
    if n > 1 {
      EmptyPops(ReadByte(x), n - 1);
    }
  }

  /** RFO reads 0 for an empty FIFO as for one byte: an RX_FULL that finds the FIFO empty makes
      a byte of the message out of nothing. */
  lemma EmptyFifoIsPopped(x: RxIo, dynamic: bool, last: bool)
    requires x.fifo == [] && Left(x) > 0
    ensures var y := ReadRx(x, dynamic, last);
            y.underflow && (if dynamic || x.m.recvLen then y.pos == x.pos + 1 else y.pos > x.pos)
  {
    hide ReadBytes, BlockLength;
    EmptyPops(x, 1);
    if !dynamic && !x.m.recvLen && Left(x) > 2 {
      EmptyPops(x, Left(x) - 2);
    }
    EmptyPops(x.(cr := x.cr + {NoAck}), 1);
    EmptyPops(x.(cr := (if last then x.cr - {Msms} else x.cr) - {NoAck}), 1);
    EmptySetup(x);
  }

  lemma EmptySetup(x: RxIo)
    requires x.fifo == []
    ensures BlockReadSetup(x).underflow && BlockReadSetup(x).pos == x.pos + 1
  {
  }

  lemma DynamicRead(o: Msg, x: RxIo, log: ReadLog, bus: BusRead, last: bool)
    requires Reading(o, x, log, bus, true) && Ripe(x)
    ensures var y := ReadRx(x, true, last);
            && Left(y) == Left(x) - |x.fifo|
            && (Left(y) != 0 ==> Reading(o, y, log, bus, true))
            && (Left(y) == 0 ==> ReadLeft(o, TrimLen(y), log, bus))
  {
    DynamicChunk(x, last);
    DrainedKeepsLog(x, |x.fifo|);
    var y := ReadRx(x, true, last);
    assert y.fifo == [];
    assert log.bytes == y.m.buf[..y.pos];
  }

  /** The new length and watermark, by the count byte n. */
  lemma CountFields(x: RxIo)
    requires |x.fifo| == 1 && x.pos == 0 && 1 <= x.m.len <= 2 && |x.m.buf| > 0
    requires x.actualLen == 0
    ensures var y, n := BlockReadSetup(x), x.fifo[0];
            var total := x.m.len + n;
            && y.m == x.m.(recvLen := false, buf := x.m.buf[0 := n], len := y.m.len)
            && y.pos == 1 && y.fifo == [] && y.cr == x.cr
            && y.underflow == x.underflow && y.overrun == x.overrun
            && y.blockRead == (n <= 32)
            && y.m.len == (if n > 32 || total < 3 then 3 else total)
            && y.actualLen == (if n <= 32 && total < 3 then total else 0)
            && y.rfd == (if n > 32 then x.rfd
                         else if total > 17 then 15 else if total < 3 then 0 else total - 3)
  {
    var z := x.(m := x.m.(recvLen := false));
    assert ReadByte(z).m.len == x.m.len;
    assert ReadByte(z).fifo == [];
  }

  /** The count decides, whatever the state of the read. */
  lemma CountDecides(x: RxIo)
    requires x.fifo != []
    ensures var y := BlockReadSetup(x);
            CountTaken(x.m.len, x.fifo[0], y.m.len, y.blockRead)
            && CountPlanned(x.m.len, x.fifo[0], x.rfd, y.rfd, x.actualLen, y.actualLen)
  {
    var z := x.(m := x.m.(recvLen := false));
    assert ReadByte(z).m.len == x.m.len;
  }

  /** What a count n makes of a length: of 0 and 0 nothing comes, and 1 and 2 become 3. */
  predicate CountTaken(len: nat, n: nat, newLen: nat, accepted: bool) {
    && (accepted <==> n <= 32)
    && newLen == if n > 32 then 3 else if 1 <= len + n < 3 then 3 else len + n
  }

  /** The watermark for the bytes still to come but the last two, and the length to trim to. */
  predicate CountPlanned(len: nat, n: nat, rfd: nat, newRfd: nat, actual: nat, newActual: nat) {
    if n > 32 then newRfd == rfd && newActual == actual
    else
      var total := len + n;
      && newRfd == (if total == 0 || total > 17 then 15 else if total < 3 then 0 else total - 3)
      && newActual == (if 1 <= total < 3 then total else actual)
  }

  /** The counts accepted are those that every buffer a caller may submit has room for. */
  lemma CountFitsEveryBuffer(x: RxIo)
    requires x.fifo != [] && ValidMsg(x.m) && x.m.recvLen
    ensures BlockReadSetup(x).blockRead <==>
              forall o: Msg :: ValidMsg(o) && o.recvLen && o.len == x.m.len ==>
                x.m.len + x.fifo[0] <= |o.buf|
  {
    CountDecides(x);
    var o := Msg(0, true, true, x.m.len, seq(x.m.len + 32, _ => 0));
    assert ValidMsg(o);
  }

  lemma StandardBlockRead(x: RxIo, last: bool)
    requires x.m.recvLen
    ensures ReadStandard(x, last) == BlockReadSetup(x)
  {
    hide BlockReadSetup, ReadBytes, Available;
  }

  /** The count byte: from here on the length is settled, or refused. */
  lemma CountRead(o: Msg, x: RxIo, log: ReadLog, bus: BusRead, last: bool)
    requires Reading(o, x, log, bus, false) && Ripe(x) && x.m.recvLen
    ensures var y := ReadRx(x, false, last);
            && Left(y) >= 2 && y.rfd <= 15
            && Reading(o, y, log, bus, false) && !y.m.recvLen
  {
    hide BlockReadSetup;
    var y := BlockReadSetup(x);
    CountFields(x);
    assert log.bytes == x.fifo;
    assert y.m.buf[..1] == [x.fifo[0]];
  }

  /** Standard mode with more than the last byte missing: the chunk rule keeps the
      invariant, and NO_ACK is set exactly when one byte is left on the bus. */
  lemma OpenRead(o: Msg, x: RxIo, log: ReadLog, bus: BusRead, last: bool)
    requires Reading(o, x, log, bus, false) && Ripe(x)
    requires !x.m.recvLen && OpenPhase(x, bus)
    ensures var y := ReadRx(x, false, last);
            && 0 < Left(y) < Left(x)
            && Reading(o, y, log, bus, false)
            && y.rfd == x.rfd
            && (NoAck in y.cr <==> Left(x) - |x.fifo| == 1)
  {
    hide ReadBytes;
    var rem := Left(x) - |x.fifo|;
    var z := if rem == 1 then x.(cr := x.cr + {NoAck}) else x;
    var n := Chunk(x, false);
    ReadBytesDrains(z, n);
    DrainedKeepsLog(z, n);
    OpenChunk(x, last);
    if o.recvLen {
      assert Drained(z, n).m.buf[..Drained(z, n).pos] + Drained(z, n).fifo == log.bytes;
    }
  }

  /** The chunk rule as long as a byte is missing. */
  lemma OpenChunk(x: RxIo, last: bool)
    requires !x.m.recvLen && x.fifo != [] && Left(x) > |x.fifo|
    ensures ReadRx(x, false, last)
         == ReadBytes(if Left(x) - |x.fifo| == 1 then x.(cr := x.cr + {NoAck}) else x, Chunk(x, false))
  {
    hide ReadBytes;
  }

  lemma ClosingRead(o: Msg, x: RxIo, log: ReadLog, bus: BusRead, last: bool)
    requires Reading(o, x, log, bus, false) && Ripe(x)
    requires !x.m.recvLen && ClosingPhase(x, bus)
    ensures var y := ReadRx(x, false, last);
            && Left(y) == 0
            && ReadLeft(o, TrimLen(y), log, bus)
  {
    var z := x.(cr := (if last then x.cr - {Msms} else x.cr) - {NoAck});
    ReadBytesDrains(z, |x.fifo|);
    DrainedKeepsLog(z, |x.fifo|);
    var y := ReadRx(x, false, last);
    assert y == Drained(z, |x.fifo|);
    assert log.bytes == y.m.buf[..y.m.len];
    ClosedIsLeft(o, x, y, log);
  }

  lemma ClosedIsLeft(o: Msg, x: RxIo, y: RxIo, log: ReadLog)
    requires Framed(o, y.m) && ValidMsg(o) && Left(y) == 0 && y.m.len <= |y.m.buf|
    requires log.bytes == y.m.buf[..y.m.len] && |log.nacks| == |log.bytes|
    requires NackShape(log.nacks, true) && LengthSettled(o, y, log.bytes)
    requires y.fifo == [] && NoAck !in y.cr && !y.underflow && !y.overrun
    ensures ReadLeft(o, TrimLen(y), log, Idle)
  {
    var t := TrimLen(y);
    assert t.m.buf[..t.m.len] == log.bytes[..t.m.len];
  }

  /** The handler's read branch: the read goes on in order, with fewer bytes
      outstanding unless the count byte has just been read; or it is finished. */
  lemma ReadKeepsOrder(o: Msg, x: RxIo, log: ReadLog, bus: BusRead, dynamic: bool, last: bool)
    requires Reading(o, x, log, bus, dynamic) && Ripe(x)
    ensures var y := ReadRx(x, dynamic, last);
            && (!x.m.recvLen ==> 0 <= Left(y) < Left(x))
            && (x.m.recvLen ==> Left(y) > 0 && !y.m.recvLen)
            && (Left(y) != 0 ==> Reading(o, y, log, bus, dynamic))
            && (Left(y) == 0 ==> ReadLeft(o, TrimLen(y), log, bus))
  {
    if dynamic {
      DynamicRead(o, x, log, bus, last);
    } else if x.m.recvLen {
      CountRead(o, x, log, bus, last);
    } else if OpenPhase(x, bus) {
      OpenRead(o, x, log, bus, last);
    } else {
      ClosingRead(o, x, log, bus, last);
    }
  }

  /** A "TX error" seen with the rest of the message in the FIFO and no block
      count pending always finishes the read. */
  lemma EarlyReadFinishes(x: RxIo, dynamic: bool, last: bool)
    requires x.fifo != [] && |x.fifo| >= Left(x) > 0 && x.pos + Left(x) <= |x.m.buf|
    requires dynamic || !x.m.recvLen
    ensures Left(ReadRx(x, dynamic, last)) == 0
  {
    var n := Left(x);
    if dynamic {
      ReadBytesDrains(x, n);
    } else {
      ReadBytesDrains(x.(cr := (if last then x.cr - {Msms} else x.cr) - {NoAck}), n);
    }
  }

  // ----- A read is begun in order -----

  lemma ReadBegins(o: Msg, x: RxIo, bus: BusRead, dynamic: bool)
    requires ValidMsg(o) && o.rd && x.m == o && x.pos == 0 && x.fifo == []
    requires x.actualLen == 0 && !x.blockRead && !x.underflow && !x.overrun
    requires dynamic ==> !o.recvLen && o.len <= 255 && NoAck !in x.cr
                         && bus == (if o.len == 0 then Idle else Dyn(o.len))
                         && x.rfd == (if o.len > 0 then Min(o.len, 16) - 1 else 0)
    requires !dynamic ==> o.len > 0 && bus == Std
                          && x.rfd == (if o.len > 16 then 15
                                       else if o.len == 1 then 0 else o.len - 2)
                          && (NoAck in x.cr <==> o.len == 1 && !o.recvLen)
    ensures Reading(o, x, ReadLog([], []), bus, dynamic)
  {
  }
}
