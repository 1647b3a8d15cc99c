/** The rounds of a cooperating bus are runs: sequences of byte arrivals, FIFO levels,
    interrupt bits and handler calls. So what rounds reach, runs reach. */
module XiicRuns {
  import opened XiicDevice
  import opened XiicSpec
  import opened XiicCursor
  import opened XiicTransfer
  import opened XiicReads
  import opened XiicProgress

  // ----- Runs, one after the other -----

  lemma RunOne(s: State, e: Event)
    ensures Run(s, [e], true) == Step(s, e, true)
  {
    hide Step;
    assert [e][1..] == [];
  }

  lemma {:induction false} RunAppends(s: State, a: seq<Event>, b: seq<Event>)
    ensures Run(s, a + b, true) == Run(Run(s, a, true), b, true)
    decreases |a|
  {
    hide Step;
    if a == [] {
      assert a + b == b;
    } else {
      RunAppends(Step(s, a[0], true), a[1..], b);
      assert (a + b)[1..] == a[1..] + b;
    }
  }

  lemma RunNone(s: State)
    ensures Run(s, [], true) == s
  {
  }

  lemma RunThen(s: State, a: seq<Event>, e: Event)
    ensures Run(s, a + [e], true) == Step(Run(s, a, true), e, true)
  {
    hide Step;
    RunAppends(s, a, [e]);
    RunOne(Run(s, a, true), e);
  }

  /** Bits latch and the handler runs. */
  lemma RunInterrupt(s: State, a: seq<Event>, bits: set<Irq>)
    ensures var t := Run(s, a, true);
            Run(s, a + [IrqBits(bits)] + [Interrupt], true)
            == Process(State(t.d, Latch(t.h, bits)), true)
  {
    hide Process;
    RunThen(s, a, IrqBits(bits));
    RunThen(s, a + [IrqBits(bits)], Interrupt);
  }

  // ----- Rounds are runs -----

  lemma {:induction false} FeedIsRun(s: State, slave: Slave) returns (events: seq<Event>)
    ensures Run(s, events, true) == State(s.d, Feed(s.h, slave))
    decreases Watermark(s.h) - |s.h.rxFifo|
  {
    events := [];
    if CanClock(s.h) {
      var b := slave.byte(|s.h.logs[|s.h.logs| - 1].bytes|);
      var rest := FeedIsRun(State(s.d, Clock(s.h, b)), slave);
      events := [ByteIn(b)] + rest;
      assert events[1..] == rest;
    }
  }

  lemma RoundIsRun(s: State, slaves: Slaves) returns (events: seq<Event>)
    ensures Run(s, events, true) == BusRound(s, slaves)
  {
    hide Process, Feed;
    if s.d.tx.None? {
      events := [];
    } else if s.d.rx.Some? {
      var slave := slaves(s.d.tx.value);
      var feed := FeedIsRun(s, slave);
      var bits := RoundBits(Feed(s.h, slave), slave.nack);
      events := feed + [IrqBits(bits)] + [Interrupt];
      RunInterrupt(s, feed, bits);
    } else if !OnlyStopLeft(s.d) {
      events := [TxLevel(0)] + [IrqBits({TxEmpty})] + [Interrupt];
      RunOne(s, TxLevel(0));
      RunInterrupt(s, [TxLevel(0)], {TxEmpty});
    } else if StopAsked(s) {
      events := [] + [IrqBits({Bnb})] + [Interrupt];
      RunInterrupt(s, [], {Bnb});
    } else {
      events := [];
    }
  }

  lemma {:induction false} RoundsAreRun(s: State, slaves: Slaves, n: nat) returns (events: seq<Event>)
    ensures Run(s, events, true) == BusRounds(s, slaves, n)
    decreases n
  {
    hide BusRound, Step;
    events := [];
    if n > 0 {
      var first := RoundIsRun(s, slaves);
      var rest := RoundsAreRun(BusRound(s, slaves), slaves, n - 1);
      events := first + rest;
      RunAppends(s, first, rest);
    }
  }

  // ----- The end of the last message but one -----

  lemma NotDead(s: State, slaves: Slaves)
    requires Cursor(s) && Dead(s) && ReadsAsk(s.d.sent, |s.d.sent| - 1)
    ensures s.d.nmsgs <= 1
  {
  }

  /** The first n rounds leave a message to follow the current one. */
  predicate RoundsBefore(s: State, slaves: Slaves, n: nat)
    decreases n
  {
    n == 0 || (Lively(s, slaves) && s.d.nmsgs >= 2 && RoundsBefore(BusRound(s, slaves), slaves, n - 1))
  }

  lemma BeforeUnfolds(s: State, slaves: Slaves, n: nat)
    ensures RoundsBefore(s, slaves, 0)
    ensures Lively(s, slaves) && s.d.nmsgs >= 2 && RoundsBefore(BusRound(s, slaves), slaves, n)
            ==> RoundsBefore(s, slaves, n + 1)
  {
    hide Lively, BusRound;
  }

  /** If all reads but perhaps the last message ask for bytes, a cooperating bus brings
      the transfer to the end of the last message but one. */
  lemma {:induction false} ReachesLastButOne(s: State, slaves: Slaves, bound: nat) returns (n: nat)
    requires Lively(s, slaves) && bound == Missing(s)
    requires s.d.nmsgs >= 2 && ReadsAsk(s.d.sent, |s.d.sent| - 1)
    ensures var t := BusRounds(s, slaves, n);
            && Lively(t, slaves) && t.d.nmsgs == 2 && AboutToEnd(t, slaves)
            && t.d.sent == s.d.sent && t.d.dynamic == s.d.dynamic
    ensures RoundsBefore(s, slaves, n)
    decreases s.d.nmsgs, RxMsg(s.d).recvLen, bound
  {
    hide BusRound, Lively, Missing, Dead, AboutToEnd, ReadsAsk, BusRounds, Cursor, RoundsBefore;
    RoundsUnfold(s, slaves, 0);
    BeforeUnfolds(s, slaves, 0);
    if s.d.nmsgs == 2 && AboutToEnd(s, slaves) {
      n := 0;
    } else {
      NextRound(s, slaves);
      var r := BusRound(s, slaves);
      LivelyCursor(s, slaves);
      BusRoundKeepsCursor(s, slaves);
      if Dead(r) {
        NotDead(r, slaves);
        assert false;
      }
      MissingIsNat(r, slaves);
      var k := ReachesLastButOne(r, slaves, Missing(r));
      n := k + 1;
      RoundsUnfold(s, slaves, k);
      BeforeUnfolds(s, slaves, k);
    }
  }

  lemma LivelyCursor(s: State, slaves: Slaves)
    requires Lively(s, slaves)
    ensures Cursor(s) && Inv(s) && !Astray(s.h) && s.d.tx.Some?
  {
  }
}
