/** What a flag smbus_block_read left set does to the transfers that follow: exactly
    which lists it makes the driver report falsely, in either mode; and one run from an idle
    driver through an aborted block read to such a report. */
module XiicHarm {
  import opened Wrappers
  import opened XiicDevice
  import opened XiicSpec
  import opened XiicEncode
  import opened XiicReading
  import opened XiicCursor
  import opened XiicTransfer
  import opened XiicHandler
  import opened XiicReads
  import opened XiicErrors
  import opened XiicStop
  import opened XiicProgress
  import opened XiicRuns
  import opened XiicBnb
  import opened XiicRace
  import opened XiicEmpty
  import opened XiicSuccess
  import opened XiicWaits
  import opened XiicFlag

  // ----- An empty read in dynamic mode -----

  /** An empty read before the last message holds a flagged transfer up as well. */
  predicate FlagHeld(s: State, j: nat) {
    || (s.d.blockRead && Held(With(s, false), j) && j < |s.d.sent| - 1)
    || (s.d.tx.None? && s.d.rx.None? && s.d.status != Done)
  }

  lemma FlagHeldProcess(s: State, j: nat, clkOk: bool)
    requires FlagHeld(s, j)
    ensures FlagHeld(Process(s, clkOk), j)
  {
    hide Process, Held, Looks, Uncounted, Overwrites;
    if s.d.blockRead && Held(With(s, false), j) && j < |s.d.sent| - 1 {
      var u := With(s, false);
      WithBack(s);
      HeldFields(u, j);
      if Looks(u) {
        DynamicUncounted(u);
        FlaggedOutcome(u, clkOk);
        NotAtLast(u, j, clkOk);
      } else {
        DynamicOverwrites(u);
        ProcessIgnores(u, true, clkOk);
        ProcessIgnores(u, false, clkOk);
        HeldProcess(u, j, clkOk);
        InvHasCursor(u);
        ProcessKeepsCursor(u, clkOk);
        WithForth(Process(u, clkOk));
      }
    } else {
      IdleProcessFrame(s, clkOk);
    }
  }

  lemma HeldFields(u: State, j: nat)
    requires Held(u, j)
    ensures Inv(u) && !Astray(u.h) && u.d.dynamic && (u.d.tx.Some? ==> u.d.tx.value <= j)
  {
    hide Inv, Raceable;
  }

  lemma DynamicUncounted(u: State)
    requires Inv(u) && !Astray(u.h) && u.d.dynamic
    ensures Uncounted(u)
  {
    hide Armed, Reading, EncodeUpTo, WordsUpTo, Encode;
    if u.d.tx.Some? {
      assert ValidAt(u.d.sent, u.d.dynamic, u.d.tx.value);
    }
  }

  lemma DynamicOverwrites(u: State)
    requires u.d.dynamic
    ensures !Overwrites(u)
  {
    hide Resets, EntryPend;
  }

  lemma NotAtLast(u: State, j: nat, clkOk: bool)
    requires Held(u, j) && j < |u.d.sent| - 1 && u.d.tx.Some? && ReachedOk(u, Reached(u)) && Looks(u)
    ensures Reached(u).s.d.nmsgs != 1
  {
    hide Inv, Raceable, Reached, Looks, Held, AfterBranch, BnbPart;
    HeldFields(u, j);
    InvHasCursor(u);
    CursorCount(u);
    if u.d.tx.value == j {
      NothingHappens(u, j, clkOk);
      FlaggedPass(u, clkOk);
      BnbKeepsMore(Reached(u), EntryPend(u));
    }
  }

  lemma {:induction false} FlagHeldRuns(s: State, j: nat, events: seq<Event>, clkOk: bool)
    requires FlagHeld(s, j)
    ensures FlagHeld(Run(s, events, clkOk), j)
    decreases |events|
  {
    hide Process, FlagHeld;
    if events != [] {
      if events[0].Interrupt? {
        FlagHeldProcess(s, j, clkOk);
      } else {
        FlagHeldBus(s, j, events[0], clkOk);
      }
      FlagHeldRuns(Step(s, events[0], clkOk), j, events[1..], clkOk);
    }
  }

  lemma FlagHeldBus(s: State, j: nat, e: Event, clkOk: bool)
    requires FlagHeld(s, j) && !e.Interrupt?
    ensures FlagHeld(Step(s, e, clkOk), j)
  {
    hide Inv, Raceable;
    if s.d.blockRead && Held(With(s, false), j) && j < |s.d.sent| - 1 {
      var u := With(s, false);
      StepKeepsInv(u, e, clkOk);
      BusKeepsAstray(u, e, clkOk);
      BusSpoils(u, j, e, clkOk);
      assert With(Step(s, e, clkOk), false) == Step(u, e, clkOk);
    }
  }

  /** Before the last message there is no count to overwrite the flag. */
  lemma NoCountYet(s: State, t: State)
    requires Inv(s) && !Astray(s.h) && s.d.tx.Some? && s.d.nmsgs >= 2 && t.d == s.d
    ensures !Overwrites(t) && Uncounted(s)
  {
    hide EncodeUpTo, WordsUpTo, MsgDone, Armed, Clean, HalfOff, EntryPend, Resets;
    assert ValidAt(s.d.sent, s.d.dynamic, s.d.tx.value);
  }

  /** Rounds before the last message see no free bus, and so leave the flag alone. */
  lemma RoundIgnores(s: State, slaves: Slaves)
    requires Lively(s, slaves) && s.d.nmsgs >= 2
    ensures BusRound(With(s, true), slaves) == With(BusRound(s, slaves), true)
  {
    hide Process, Feed, Lively, Looks, Overwrites, Inv;
    LivelyCursor(s, slaves);
    var t := State(s.d, InRound(s, slaves));
    NoBnbInRound(s, t, slaves);
    NoCountYet(s, t);
    ProcessIgnores(t, true, true);
  }

  lemma NoBnbInRound(s: State, t: State, slaves: Slaves)
    requires Lively(s, slaves) && s.d.nmsgs >= 2 && s.d.tx.Some?
    requires t == State(s.d, InRound(s, slaves))
    ensures !Looks(t)
  {
    hide Resets, TakesCount, Reached, EntryPend, Lively, Pend, InRound;
    RoundFinds(s, slaves);
  }

  lemma {:induction false} RoundsIgnore(s: State, slaves: Slaves, n: nat)
    requires RoundsBefore(s, slaves, n)
    ensures BusRounds(With(s, true), slaves, n) == With(BusRounds(s, slaves, n), true)
    decreases n
  {
    hide BusRound, Lively;
    if n > 0 {
      RoundIgnores(s, slaves);
      RoundsIgnore(BusRound(s, slaves), slaves, n - 1);
    }
  }

  /** The racing pass of the last message but one, with the flag set. */
  lemma FlaggedRace(u: State)
    requires Inv(u) && !Astray(u.h) && Looks(u) && u.d.nmsgs == 2 && (u.d.dynamic || u.h.polls == [])
    requires ProcessPass(u, true).more
    requires SilentWhenEmpty(u.d.sent, u.d.dynamic, u.h.chip.emptyRead)
    requires u.d.sent != [] && !FitsAtOnce(u.d.sent[|u.d.sent| - 1])
    ensures FalseSuccess(Process(With(u, true), true))
  {
    hide Process, ProcessPass, Inv, Looks, Uncounted, Reached, AllDone, FitsAtOnce, SilentWhenEmpty,
         BnbPart, AfterBranch, Cursor;
    LooksFields(u);
    NoCountYet(u, u);
    FlaggedOutcome(u, true);
    FlaggedPass(u, true);
    BnbKeepsMore(Reached(u), EntryPend(u));
    ReachedNext(u, Reached(u));
    FlaggedStaysOn(u);
    FlaggedLength(u);
  }

  lemma FlaggedLength(u: State)
    requires Inv(u)
    ensures var r := Process(With(u, true), true); |r.d.msgs| == |r.d.sent|
  {
    hide Process, Inv, Cursor;
    InvHasCursor(u);
    assert Cursor(With(u, true)) by { SameCursorFields(u); }
    ProcessKeepsCursor(With(u, true), true);
    LengthStays(Process(With(u, true), true));
  }

  lemma SameCursorFields(u: State)
    requires Cursor(u)
    ensures Cursor(With(u, true))
  {
  }

  lemma LengthStays(r: State)
    requires Cursor(r)
    ensures |r.d.msgs| == |r.d.sent|
  {
  }

  lemma ReachedNext(u: State, p: Pass)
    requires ReachedOk(u, p) && p.more && u.d.nmsgs == 2
    ensures p.s.d.nmsgs == 1 && p.s.d.rx.None?
  {
    hide Running, History, EncodeUpTo;
  }

  /** A pass with the flag set does not lead astray either. */
  lemma FlaggedStaysOn(u: State)
    requires Inv(u) && !Astray(u.h) && (u.d.dynamic || u.h.polls == [])
    requires SilentWhenEmpty(u.d.sent, u.d.dynamic, u.h.chip.emptyRead)
    ensures !Astray(Process(With(u, true), true).h)
  {
    hide Process, Inv, SilentWhenEmpty, Cursor, HalfOff, Unstarted;
    var f := With(u, true);
    InvHasCursor(u);
    InvHasHalfOff(u);
    InvUnstarted(u);
    assert Cursor(f) && HalfOff(f) by { SameFields(u); }
    assert Unstarted(f.d) by { FlagUnstarted(u); }
    ProcessNeverStray(f, true);
    ProcessInTime(f, true);
  }

  lemma FlagUnstarted(u: State)
    requires Unstarted(u.d)
    ensures Unstarted(With(u, true).d)
  {
  }

  /** A long write at the end: the bus falls free as soon as it has begun. */
  lemma FlaggedWrite(u: State)
    requires Inv(u) && !Astray(u.h) && (u.d.dynamic || u.h.polls == [])
    requires u.d.tx.Some? && u.d.nmsgs == 1 && Pend(u.h) == {Bnb} && u.d.rx.None?
    requires u.d.sent != []
    requires var last := u.d.sent[|u.d.sent| - 1]; !last.rd && u.d.txPos < last.len
    requires SilentWhenEmpty(u.d.sent, u.d.dynamic, u.h.chip.emptyRead)
    ensures FalseSuccess(Process(With(u, true), true))
  {
    hide Process, Inv, Uncounted, Reached, AllDone, SilentWhenEmpty, Looks, ReachedOk, Cursor;
    InvHasCursor(u);
    BnbAlone(u);
    CursorCount(u);
    assert Uncounted(u) by { WriteUncounted(u); }
    FlaggedOutcome(u, true);
    FlaggedStaysOn(u);
    FlaggedLength(u);
  }

  lemma WriteUncounted(u: State)
    requires Inv(u) && !Astray(u.h) && u.d.tx.Some? && u.d.tx.value < |u.d.sent|
    requires !u.d.sent[u.d.tx.value].rd
    ensures Uncounted(u)
  {
    hide EncodeUpTo, WordsUpTo, MsgDone, Armed, Clean, HalfOff;
    assert ValidAt(u.d.sent, u.d.dynamic, u.d.tx.value);
  }

  lemma BnbAlone(u: State)
    requires Pend(u.h) == {Bnb} && u.d.tx.Some?
    ensures Looks(u) && Reached(u) == Pass(u, {}, false, false, None)
  {
    hide ReadRx, FillState, TrimLen;
    assert {Bnb} * {TxEmpty, TxHalf} == {};
  }

  /** The flagged start, and the one without the flag. */
  lemma FlaggedStart(s: State, msgs: seq<Msg>, c: Config, slaves: Slaves) returns (s1: State)
    requires CanStart(s, msgs, c) && s.d.blockRead
    ensures s1 == StartXfer(With(s, false), msgs, c, (false, false))
    ensures StartXfer(s, msgs, c, (false, false)) == With(s1, true)
    ensures if ReadsAsk(msgs, 1) then Lively(s1, slaves) else Dead(s1)
    ensures s1.d.sent == msgs && s1.d.nmsgs == |msgs|
    ensures s1.d.dynamic == UsesDynamic(msgs, c.readBroken) && s1.d.tx == Some(0)
  {
    hide StartXfer, Lively, Dead, UsesDynamic, ReadsAsk, SilentWhenEmpty, ValidTransfer, Cursor;
    var t := With(s, false);
    WithBack(s);
    assert CanStart(t, msgs, c);
    s1 := StartXfer(t, msgs, c, (false, false));
    StartXferIgnores(t, msgs, c, (false, false));
    StartedIsLively(t, msgs, c, slaves);
    StartXferSetsCursor(t, msgs, c, (false, false));
  }

  /** The end of the last message but one, with the flag set. */
  lemma FlaggedLastButOne(s: State, msgs: seq<Msg>, c: Config, slaves: Slaves)
      returns (t: State, events: seq<Event>)
    requires CanStart(s, msgs, c) && s.d.blockRead && |msgs| >= 2 && ReadsAsk(msgs, |msgs| - 1)
    ensures Run(StartXfer(s, msgs, c, (false, false)), events, true) == With(t, true)
    ensures Lively(t, slaves) && t.d.nmsgs == 2 && AboutToEnd(t, slaves) && t.d.sent == msgs
    ensures SeesFree(s.h, msgs, UsesDynamic(msgs, c.readBroken)) ==> Bnb in t.h.ier
  {
    hide StartXfer, Lively, BusRounds, Dead, UsesDynamic, SilentWhenEmpty, AboutToEnd, Run, ReadsAsk,
         RoundsBefore, CanStart, WriteUpTo, BnbStays;
    var s1 := FlaggedStart(s, msgs, c, slaves);
    FewerAsk(msgs, 1, |msgs| - 1);
    MissingIsNat(s1, slaves);
    var n := ReachesLastButOne(s1, slaves, Missing(s1));
    t := BusRounds(s1, slaves, n);
    RoundsIgnore(s1, slaves, n);
    events := RoundsAreRun(With(s1, true), slaves, n);
    assert CanStart(With(s, false), msgs, c) by { UnflaggedCanStart(s, msgs, c); }
    StartedBnb(With(s, false), msgs, c);
    RoundsKeepBnbOn(s1, slaves, n, BnbStays(s.h));
    LivelyCursor(t, slaves);
    LastButOne(t);
  }

  lemma UnflaggedCanStart(s: State, msgs: seq<Msg>, c: Config)
    requires CanStart(s, msgs, c)
    ensures CanStart(With(s, false), msgs, c)
  {
    hide UsesDynamic, ValidTransfer, SilentWhenEmpty, ReinitRet;
  }

  /** Several messages: a free bus as the last but one ends. */
  lemma FlaggedRaceRun(s: State, msgs: seq<Msg>, c: Config, slaves: Slaves)
      returns (events: seq<Event>)
    requires CanStart(s, msgs, c) && s.d.blockRead
    requires SeesFree(s.h, msgs, UsesDynamic(msgs, c.readBroken))
    requires |msgs| >= 2 && ReadsAsk(msgs, |msgs| - 1) && !FitsAtOnce(msgs[|msgs| - 1])
    ensures FalseSuccess(Run(StartXfer(s, msgs, c, (false, false)), events, true))
  {
    hide StartXfer, Lively, SeesFree, UsesDynamic, SilentWhenEmpty, AboutToEnd, Run, Racing,
         ReadsAsk, FalseSuccess, FitsAtOnce, RaceBits, Settle, Process, Inv, Cursor, CanStart, Looks;
    var t, rounds := FlaggedLastButOne(s, msgs, c, slaves);
    LivelyCursor(t, slaves);
    LivelyIsQuiet(t, slaves);
    RacingFrame(t, slaves);
    RacingPends(t, slaves);
    RacingAdvances(t, slaves, true);
    LivelySilent(t, slaves);
    RacingIs(t, slaves);
    var feed := SettleIsRun(t, slaves);
    RacingInv(t, slaves, feed);
    NoCountYet(t, Racing(t, slaves));
    RacingLooks(Racing(t, slaves), t);
    FlaggedRace(Racing(t, slaves));
    var again := SettleIsRun(With(t, true), slaves);
    events := rounds + again + [IrqBits(RaceBits(t))] + [Interrupt];
    var f := StartXfer(s, msgs, c, (false, false));
    RunAppends(f, rounds, again);
    RunInterrupt(f, rounds + again, RaceBits(t));
    SettleIgnores(t, slaves);
  }

  lemma SettleIgnores(t: State, slaves: Slaves)
    ensures Settle(With(t, true), slaves) == Settle(t, slaves)
    ensures State(With(t, true).d, Latch(Settle(t, slaves), RaceBits(t))) == With(Racing(t, slaves), true)
  {
    hide Feed, Latch, RaceBits;
  }

  lemma RacingLooks(u: State, t: State)
    requires Pend(u.h) == RaceBits(t) && u.d == t.d && u.d.tx.Some? && !Overwrites(u)
    ensures Looks(u)
  {
    hide ReadRx, FillState, TrimLen;
  }

  /** The last message, a write of more than 15 bytes, has just begun. */
  lemma FlaggedLongWrite(s: State, msgs: seq<Msg>, c: Config, slaves: Slaves)
      returns (r: State, events: seq<Event>)
    requires CanStart(s, msgs, c) && s.d.blockRead && ReadsAsk(msgs, |msgs| - 1)
    requires var last := msgs[|msgs| - 1]; !last.rd && last.len > FIRST_CHUNK
    ensures Run(StartXfer(s, msgs, c, (false, false)), events, true) == With(r, true)
    ensures Lively(r, slaves) && r.d.nmsgs == 1 && r.d.sent == msgs
    ensures r.d.rx.None? && r.d.txPos < msgs[|msgs| - 1].len
  {
    hide StartXfer, Lively, UsesDynamic, SilentWhenEmpty, AboutToEnd, Run, ReadsAsk, SeesFree, Dead,
         Inv, Process, BusRound;
    if |msgs| == 1 {
      r := FlaggedStart(s, msgs, c, slaves);
      WriteAsks(msgs);
      events := [];
      RunNone(With(r, true));
      LivelyCursor(r, slaves);
      LongWriteBegun(s, msgs, c, slaves, r);
    } else {
      var t, rounds := FlaggedLastButOne(s, msgs, c, slaves);
      LivelyCursor(t, slaves);
      NotOnlyStop(t, slaves);
      NextRound(t, slaves);
      r := BusRound(t, slaves);
      LastButOne(t);
      RoundIgnores(t, slaves);
      BusRoundKeepsCursor(t, slaves);
      LastIsCurrent(t, r, slaves);
      LivelyCursor(r, slaves);
      NextWriteBegins(t, slaves);
      var more := RoundIsRun(With(t, true), slaves);
      events := rounds + more;
      RunAppends(StartXfer(s, msgs, c, (false, false)), rounds, more);
    }
  }

  lemma WriteAsks(msgs: seq<Msg>)
    requires |msgs| == 1 && !msgs[0].rd
    ensures ReadsAsk(msgs, 1)
  {
  }

  lemma NotOnlyStop(t: State, slaves: Slaves)
    requires t.d.nmsgs == 2
    ensures !(t.d.rx.None? && OnlyStopLeft(t.d))
  {
  }

  lemma LastIsCurrent(t: State, r: State, slaves: Slaves)
    requires Cursor(r) && Onward(t, r, slaves) && r.d.nmsgs == 1
    requires t.d.sent != [] && !t.d.sent[|t.d.sent| - 1].rd
    ensures Lively(r, slaves) && r.d.sent == t.d.sent
  {
    hide Lively;
  }

  /** The round that ends the last message but one begins the last. */
  lemma NextWriteBegins(t: State, slaves: Slaves)
    requires Lively(t, slaves) && t.d.nmsgs == 2 && AboutToEnd(t, slaves)
    requires t.d.tx == Some(|t.d.sent| - 2) && BusRound(t, slaves).d.nmsgs == 1
    requires BusRound(t, slaves).d.tx.Some? && !Astray(BusRound(t, slaves).h)
    requires var last := t.d.sent[|t.d.sent| - 1]; !last.rd && last.len > FIRST_CHUNK
    ensures var r := BusRound(t, slaves);
            r.d.rx.None? && r.d.txPos < t.d.sent[|t.d.sent| - 1].len
  {
    hide Process, Lively, AboutToEnd, BusRound, InRound, Inv;
    RoundFinds(t, slaves);
    LivelyCursor(t, slaves);
    var u := State(t.d, InRound(t, slaves));
    RoundInv(t, slaves);
    BeginsLast(u);
  }

  lemma RoundInv(t: State, slaves: Slaves)
    requires Lively(t, slaves)
    ensures var u := State(t.d, InRound(t, slaves)); Inv(u) && !Astray(u.h)
  {
    hide Feed, Lively, Inv, Latch, Drain, StopInv;
    LivelyCursor(t, slaves);
    if t.d.rx.Some? {
      var slave := slaves(t.d.tx.value);
      LivelyStops(t, slaves);
      FeedKeepsInv(t, slave);
      StopHasInv(State(t.d, Feed(t.h, slave)));
      LatchKeepsInv(State(t.d, Feed(t.h, slave)), RoundBits(Feed(t.h, slave), slave.nack));
      LatchFrame(Feed(t.h, slave), RoundBits(Feed(t.h, slave), slave.nack));
    } else {
      DrainKeepsInv(t, 0);
      LatchKeepsInv(State(t.d, Drain(t.h, 0)), {TxEmpty});
      LatchFrame(Drain(t.h, 0), {TxEmpty});
      DrainAstray(t.h);
    }
  }

  lemma LivelyStops(t: State, slaves: Slaves)
    requires Lively(t, slaves)
    ensures StopInv(t)
  {
    hide StopInv, SilentWhenEmpty;
  }

  lemma StopHasInv(t: State)
    requires StopInv(t)
    ensures Inv(t)
  {
    hide Inv;
  }

  lemma LatchFrame(h: Hw, bits: set<Irq>)
    ensures Astray(Latch(h, bits)) == Astray(h)
  {
  }

  lemma DrainAstray(h: Hw)
    ensures Astray(Drain(h, 0)) == Astray(h)
  {
  }

  lemma BeginsLast(u: State)
    requires Inv(u) && !Astray(u.h) && u.d.tx == Some(|u.d.sent| - 2) && u.d.nmsgs == 2
    requires var r := Process(u, true); r.d.nmsgs == 1 && r.d.tx.Some? && !Astray(r.h)
    requires var last := u.d.sent[|u.d.sent| - 1]; !last.rd && last.len > FIRST_CHUNK
    ensures var r := Process(u, true); r.d.rx.None? && r.d.txPos < u.d.sent[|u.d.sent| - 1].len
  {
    hide ProcessPass, Inv, Boundary, NoRxFullBit, StartNext, Writing, Armed;
    InvHasCursor(u);
    PassKeepsCursor(u, true);
    var p, i := ProcessPass(u, true), |u.d.sent| - 1;
    var s1 := State(p.s.d, WriteIisr(p.s.h, ClearWord(p, NoRxFullBit(u))));
    StartNextFrame(s1);
    assert p.more && p.wake.None?;
    RacePass(u, true);
    SameBoundary(p.s, s1, i);
    BoundaryTx(s1, i);
    BoundaryFlags(s1, i);
    StartNextBegins(s1, i);
  }

  /** A list that ends in a write of more than 15 bytes. */
  lemma FlaggedWriteRun(s: State, msgs: seq<Msg>, c: Config, slaves: Slaves)
      returns (events: seq<Event>)
    requires CanStart(s, msgs, c) && s.d.blockRead && ReadsAsk(msgs, |msgs| - 1)
    requires var last := msgs[|msgs| - 1]; !last.rd && last.len > FIRST_CHUNK
    ensures FalseSuccess(Run(StartXfer(s, msgs, c, (false, false)), events, true))
  {
    hide StartXfer, Lively, UsesDynamic, SilentWhenEmpty, Run, FalseSuccess, Process, Inv, CanStart,
         ReadsAsk;
    var r, begun := FlaggedLongWrite(s, msgs, c, slaves);
    LivelyCursor(r, slaves);
    LivelyIsQuiet(r, slaves);
    LivelySilent(r, slaves);
    LastHasBnb(r, slaves);
    var u := State(r.d, Latch(r.h, {Bnb}));
    LatchKeepsInv(r, {Bnb});
    assert Pend(u.h) == {Bnb};
    FlaggedWrite(u);
    events := begun + [IrqBits({Bnb})] + [Interrupt];
    RunInterrupt(StartXfer(s, msgs, c, (false, false)), begun, {Bnb});
    assert State(With(r, true).d, Latch(With(r, true).h, {Bnb})) == With(u, true);
  }

  lemma LastHasBnb(r: State, slaves: Slaves)
    requires Lively(r, slaves) && r.d.nmsgs == 1
    ensures Bnb in r.h.ier
  {
    hide Running, Encode;
  }

  lemma LongWriteBegun(s: State, msgs: seq<Msg>, c: Config, slaves: Slaves, s1: State)
    requires CanStart(s, msgs, c) && |msgs| == 1 && !msgs[0].rd && msgs[0].len > FIRST_CHUNK
    requires s1 == StartXfer(With(s, false), msgs, c, (false, false)) && !Astray(s1.h)
    ensures s1.d.rx.None? && s1.d.txPos < msgs[0].len
  {
    hide StartNext, ReinitHw, ClearHistory, Boundary, Submit, UsesDynamic, Armed, Writing;
    var t := With(s, false);
    var t1 := State(Submit(t.d, msgs, c.readBroken), ReinitHw(ClearHistory(t.h), c.clkOk));
    StartIs(t, msgs, c);
    SubmittedIsBoundary(t.d, t.h, msgs, c);
    SubmitFields(t.d, msgs, c);
    BoundaryTx(t1, 0);
    StartNextBegins(t1, 0);
    StartNextFrame(t1);
    BoundaryFlags(t1, 0);
  }

  /** With the flag left set, all waits in time and no bytes clocked for empty reads: some
      run reports success falsely if and only if the last message is not complete at once,
      is not a lone read, every read before it asks for bytes and, if it is a read, "bus
      not busy" is enabled before it is started, as it always is in dynamic mode. */
  lemma FlaggedFalseSuccessIff(s: State, msgs: seq<Msg>, c: Config)
    requires CanStart(s, msgs, c) && s.d.blockRead
    ensures (exists events ::
               FalseSuccess(Run(StartXfer(s, msgs, c, (false, false)), events, true)))
       <==> && !FlagSafe(msgs) && ReadsAsk(msgs, |msgs| - 1)
            && (msgs[|msgs| - 1].rd ==> SeesFree(s.h, msgs, UsesDynamic(msgs, c.readBroken)))
  {
    hide StartXfer, Run, UsesDynamic, ReadsAsk, EmptyRead, Raceable, AllDone, SilentWhenEmpty,
         FalseSuccess, ValidTransfer, SeesFree;
    if !FlagSafe(msgs) && ReadsAsk(msgs, |msgs| - 1)
       && (msgs[|msgs| - 1].rd ==> SeesFree(s.h, msgs, UsesDynamic(msgs, c.readBroken))) {
      if msgs[|msgs| - 1].rd {
        var events := FlaggedRaceRun(s, msgs, c, Zeros);
      } else {
        var events := FlaggedWriteRun(s, msgs, c, Zeros);
      }
    } else {
      forall events
        ensures !FalseSuccess(Run(StartXfer(s, msgs, c, (false, false)), events, true))
      {
        NoFlaggedFalseSuccess(s, msgs, c, events);
      }
    }
  }

  lemma NoFlaggedFalseSuccess(s: State, msgs: seq<Msg>, c: Config, events: seq<Event>)
    requires CanStart(s, msgs, c) && s.d.blockRead
    requires || FlagSafe(msgs) || !ReadsAsk(msgs, |msgs| - 1)
             || (msgs[|msgs| - 1].rd && !SeesFree(s.h, msgs, UsesDynamic(msgs, c.readBroken)))
    ensures !FalseSuccess(Run(StartXfer(s, msgs, c, (false, false)), events, true))
  {
    hide StartXfer, Run, UsesDynamic, ReadsAsk, EmptyRead, Raceable, AllDone, SilentWhenEmpty,
         ValidTransfer, FlagSafe, FlagHeld, SeesFree, BnbOff;
    var s1 := StartXfer(s, msgs, c, (false, false));
    if !ReadsAsk(msgs, |msgs| - 1) {
      var j := FindUnasked(msgs, |msgs| - 1);
      EarlierIsNotRaceable(msgs, j);
      EmptyIsSilent(msgs, j, UsesDynamic(msgs, c.readBroken), s.h.chip.emptyRead);
      FlagHeldStart(s, msgs, c, j);
      FlagHeldRuns(s1, j, events, true);
      RunKeepsStart(s, msgs, c, events);
      FlagHeldFails(Run(s1, events, true), j);
    } else {
      FlaggedHarmless(s, msgs, c);
      HarmlessIsSound(s, msgs, c, (false, false), events);
      FlaggedNeverStray(s, msgs, c, events);
    }
  }

  lemma FlaggedHarmless(s: State, msgs: seq<Msg>, c: Config)
    requires CanStart(s, msgs, c) && s.d.blockRead
    requires || FlagSafe(msgs)
             || (msgs[|msgs| - 1].rd && !SeesFree(s.h, msgs, UsesDynamic(msgs, c.readBroken)))
    ensures Harmless(StartXfer(s, msgs, c, (false, false)))
  {
    hide StartXfer, UsesDynamic, SilentWhenEmpty, ValidTransfer, FlagSafe, SeesFree, Cursor, WriteUpTo;
    StartXferSetsCursor(s, msgs, c, (false, false));
    if !FlagSafe(msgs) {
      StartedBnb(s, msgs, c);
    }
  }

  lemma RunKeepsStart(s: State, msgs: seq<Msg>, c: Config, events: seq<Event>)
    requires CanStart(s, msgs, c)
    ensures Cursor(Run(StartXfer(s, msgs, c, (false, false)), events, true))
  {
    hide StartXfer, Cursor, UsesDynamic, ValidTransfer, SilentWhenEmpty;
    StartXferSetsCursor(s, msgs, c, (false, false));
    RunKeepsCursor(StartXfer(s, msgs, c, (false, false)), events, true);
  }

  lemma FlagHeldStart(s: State, msgs: seq<Msg>, c: Config, j: nat)
    requires CanStart(s, msgs, c) && s.d.blockRead && UsesDynamic(msgs, c.readBroken)
    requires j < |msgs| - 1 && EmptyRead(msgs[j]) && s.h.chip.emptyRead == 0 && !Raceable(msgs, j)
    ensures FlagHeld(StartXfer(s, msgs, c, (false, false)), j)
  {
    hide StartXfer, UsesDynamic, EmptyRead, Raceable, ValidTransfer, Held, SilentWhenEmpty;
    var t := With(s, false);
    WithBack(s);
    HeldFromStart(t, msgs, c, (false, false), j);
    StartXferIgnores(t, msgs, c, (false, false));
    StartHasNoFlag(t, msgs, c, (false, false));
    StartXferSetsCursor(t, msgs, c, (false, false));
    var r := StartXfer(t, msgs, c, (false, false));
    assert With(With(r, true), false) == r;
  }

  lemma FlagHeldFails(r: State, j: nat)
    requires FlagHeld(r, j)
    ensures !XferRet(r).Ok?
  {
    hide Inv, Raceable;
  }

  lemma FlaggedNeverStray(s: State, msgs: seq<Msg>, c: Config, events: seq<Event>)
    requires CanStart(s, msgs, c) && s.d.blockRead
    ensures !Run(StartXfer(s, msgs, c, (false, false)), events, true).h.stray
  {
    hide StartXfer, Run, UsesDynamic, ValidTransfer, SilentWhenEmpty, Inv, Cursor, Unstarted;
    var t, s1 := With(s, false), StartXfer(s, msgs, c, (false, false));
    WithBack(s);
    StartXferSetsCursor(s, msgs, c, (false, false));
    StartXferIgnores(t, msgs, c, (false, false));
    StartOnlyTimesOut(t, msgs, c, (false, false));
    StartedUnstarted(s, msgs, c);
    RunNeverStray(s1, events, true);
  }

  lemma StartedUnstarted(s: State, msgs: seq<Msg>, c: Config)
    requires CanStart(s, msgs, c)
    ensures Unstarted(StartXfer(s, msgs, c, (false, false)).d)
  {
    hide StartNext, ReinitHw, UsesDynamic;
    StartIs(s, msgs, c);
    StartNextFrame(State(Submit(s.d, msgs, c.readBroken), ReinitHw(ClearHistory(s.h), c.clkOk)));
  }

  // ----- From an aborted block read to a false success -----

  /** The count byte arrives and is taken. */
  lemma CountPass(t: State, slave: Slave)
    requires CalmRead(t, 0, slave) && RxMsg(t.d).recvLen && !t.d.dynamic && slave.byte(0) <= 32
    requires |t.h.rxFifo| == Watermark(t.h) && t.h.isr == {RxFull} && RxFull in t.h.ier
    ensures var r := Process(t, true);
            && Cursor(r) && r.d.tx.Some? && r.d.blockRead && r.h.isr == {} && r.d.completed == 0
            && r.h.ier == t.h.ier && r.h.chip == t.h.chip
  {
    hide Process, ReadRx, Receiving, Armed, Cursor, RxPart, Finish;
    ReceivingRx(t, 0);
    CalmIsOpen(t, slave);
    assert Pend(t.h) == {RxFull};
    var x := ReadRx(RxView(t), t.d.dynamic, t.d.nmsgs == 1);
    CountRx(t, slave);
    GoesOnReading(t, 0, slave, true);
    OnlyReadBranch(t, true);
    OpenPass(t, x);
    CountFieldsLeft(t, x);
    CalmIsOpen(Process(t, true), slave);
    ProcessKeepsCursor(t, true);
    OpenTransfer(Process(t, true));
  }

  lemma OpenTransfer(r: State)
    requires CursorOf(r.d) && r.d.tx.Some?
    ensures r.d.completed == 0
  {
  }

  lemma CountRx(t: State, slave: Slave)
    requires CalmRead(t, 0, slave) && RxMsg(t.d).recvLen && !t.d.dynamic && slave.byte(0) <= 32
    requires |t.h.rxFifo| == Watermark(t.h) && t.h.isr == {RxFull} && RxFull in t.h.ier
    ensures var y := ReadRx(RxView(t), t.d.dynamic, t.d.nmsgs == 1);
            Left(y) != 0 && y.blockRead
  {
    hide History, BlockReadSetup;
    CountRead(t.d.sent[0], RxView(t), t.h.logs[0], t.h.bus, t.d.nmsgs == 1);
    CountFields(RxView(t));
    assert t.h.logs[0].bytes == t.h.rxFifo;
  }

  lemma CountFieldsLeft(t: State, x: RxIo)
    requires t.d.rx.Some? && t.d.rx.value < |t.d.msgs| && t.h.isr == {RxFull}
    ensures var w := WithRx(t, x);
            var r := State(w.d, WriteIisr(w.h, {RxFull}));
            && r.h.isr == {} && r.h.ier == t.h.ier && r.h.chip == t.h.chip
            && r.d.blockRead == x.blockRead
  {
  }

  /** Arbitration is lost: the transfer ends, and the flag stays. */
  lemma AbortKeepsFlag(r: State)
    requires Cursor(r) && r.d.tx.Some? && r.d.blockRead && r.d.completed == 0
    requires r.h.isr == {} && ArbLost in r.h.ier && r.h.drains == []
    ensures var e := Process(State(r.d, Latch(r.h, {ArbLost})), true);
            && XferRet(e) == EIo && XferEnd(e) == e && e.d.tx.None? && e.d.rx.None? && e.d.blockRead
            && e.h.isr == {} && e.h.chip == r.h.chip
            && e.h.drains == []
  {
    hide Branches, Cursor, ReinitHw;
    var t := State(r.d, Latch(r.h, {ArbLost}));
    assert ArbLost in Pend(t.h);
    ReinitClears(t.h);
    assert WriteIisr(ReinitHw(t.h, true), {}).isr == {};
  }

  lemma ReinitClears(h: Hw)
    requires h.isr == {ArbLost}
    ensures ReinitHw(h, true).chip == h.chip
    ensures h.drains == [] ==> ReinitHw(h, true).drains == [] && ReinitHw(h, true).isr == {}
  {
    hide ReinitHw, DrainRx;
    ReinitFrame(h, true);
  }

  /** With all drains in time a start is accepted, and leaves none pending. */
  lemma StartDrains(s: State, msgs: seq<Msg>, c: Config)
    requires msgs != [] && s.d.tx.None? && s.d.rx.None? && c.clkOk && s.h.drains == []
    ensures StartXferRet(s, c, (false, false)).Ok?
    ensures StartXfer(s, msgs, c, (false, false)).h.drains == []
  {
    hide StartNext, ReinitHw, UsesDynamic;
    ReinitFrame(ClearHistory(s.h), true);
    StartIs(s, msgs, c);
    var t := State(Submit(s.d, msgs, c.readBroken), ReinitHw(ClearHistory(s.h), c.clkOk));
    StartStray(t);
  }

  /** From an idle driver: a block read that loses arbitration after a good count, and then
      any dynamic-mode list that a flag can harm. The first transfer returns EIO, the
      second num, and not everything of it is done. */
  lemma AbortedReadHarms(s: State, b: Msg, count: Byte, msgs: seq<Msg>, c: Config)
      returns (first: seq<Event>, second: seq<Event>)
    requires s.h.isr == {} && s.h.drains == []
    requires CanRead(s, b, c) && b.recvLen && count <= 32
    requires UsesDynamic(msgs, c.readBroken) && ValidTransfer(msgs, true)
    requires SilentWhenEmpty(msgs, true, s.h.chip.emptyRead)
    requires !FlagSafe(msgs) && ReadsAsk(msgs, |msgs| - 1)
    ensures var r1 := Run(StartXfer(s, [b], c, (false, false)), first, true);
            var s2 := XferEnd(r1);
            var r2 := Run(StartXfer(s2, msgs, c, (false, false)), second, true);
            XferRet(r1) == EIo && s2.d.blockRead && FalseSuccess(r2)
  {
    hide StartXfer, Process, Run, UsesDynamic, ValidAt, SilentWhenEmpty, FlagSafe, ReadsAsk,
         FalseSuccess, Feed, CalmRead, Latch, Cursor;
    var slave := Slave(j => count, Silent);
    var s1 := StartXfer(s, [b], c, (false, false));
    OneReadStarts(s, b, slave, c);
    BlockReadIsQuiet(s, b, c);
    var feed := FeedIsRun(s1, slave);
    var t := State(s1.d, Latch(Feed(s1.h, slave), {RxFull}));
    FeedReady(s1, t, slave);
    CountPass(t, slave);
    var r := Process(t, true);
    RunInterrupt(s1, feed, {RxFull});
    var start := feed + [IrqBits({RxFull})] + [Interrupt];
    BlockReadErrors(s, b, c, start);
    StartDrains(s, [b], c);
    RunDrains(s1, start, true);
    AbortKeepsFlag(r);
    first := start + [IrqBits({ArbLost})] + [Interrupt];
    RunInterrupt(s1, start, {ArbLost});
    var s2 := Process(State(r.d, Latch(r.h, {ArbLost})), true);
    StartDrains(s2, msgs, c);
    second := HarmRun(s2, msgs, c);
  }

  lemma FeedReady(s1: State, t: State, slave: Slave)
    requires CalmRead(s1, 0, slave) && RxSpace(s1.d) > 0 && s1.h.isr == {}
    requires t == State(s1.d, Latch(Feed(s1.h, slave), {RxFull}))
    ensures CalmRead(t, 0, slave) && |t.h.rxFifo| == Watermark(t.h) && t.h.isr == {RxFull}
    ensures RxFull in t.h.ier && t.h.chip == s1.h.chip
  {
    hide Receiving, Cursor, Feed;
    FeedReachesWatermark(s1, 0, slave);
    FeedFrame(s1, slave);
    var u := State(s1.d, Feed(s1.h, slave));
    assert Pend(u.h) == {};
    CalmAgain(u, t, 0, slave);
    CalmEnables(u, 0, slave);
  }

  lemma BlockReadIsQuiet(s: State, b: Msg, c: Config)
    requires s.h.isr == {} && CanRead(s, b, c) && b.recvLen
    ensures var r := StartXfer(s, [b], c, (false, false));
            r.h.isr == {} && r.h.chip == s.h.chip && !r.d.dynamic && RxSpace(r.d) > 0
  {
    hide StartNext, ReinitHw, ClearHistory, Boundary, Submit;
    assert ForcesStandard([b][0], c.readBroken);
    var t := State(Submit(s.d, [b], c.readBroken), ReinitHw(ClearHistory(s.h), c.clkOk));
    StartIs(s, [b], c);
    SubmittedIsBoundary(s.d, s.h, [b], c);
    SubmitFields(s.d, [b], c);
    SubmitPrev(s.d, [b], c);
    ClearFields(s.h, true);
    ReinitIsr(ClearHistory(s.h));
    BoundaryTx(t, 0);
    StartStray(t);
    StartNextFrame(t);
    StartNextBegins(t, 0);
    ReadStartQuiet(t);
    FreshSpace(StartNext(t), 0);
  }

  lemma BlockReadErrors(s: State, b: Msg, c: Config, events: seq<Event>)
    requires CanRead(s, b, c)
    ensures var r := Run(StartXfer(s, [b], c, (false, false)), events, true);
            r.d.tx.Some? ==> ArbLost in r.h.ier
  {
    hide StartXfer, Run, UsesDynamic;
    StartXferSetsCursor(s, [b], c, (false, false));
    StartXferErrors(s, [b], c, (false, false));
    RunKeepsErrors(StartXfer(s, [b], c, (false, false)), events, true);
  }

  lemma HarmRun(s: State, msgs: seq<Msg>, c: Config) returns (events: seq<Event>)
    requires StartXferRet(s, c, (false, false)).Ok? && s.d.blockRead && s.h.isr == {}
    requires UsesDynamic(msgs, c.readBroken) && ValidTransfer(msgs, true)
    requires SilentWhenEmpty(msgs, true, s.h.chip.emptyRead)
    requires !FlagSafe(msgs) && ReadsAsk(msgs, |msgs| - 1)
    ensures FalseSuccess(Run(StartXfer(s, msgs, c, (false, false)), events, true))
  {
    hide StartXfer, Run, UsesDynamic, ReadsAsk, SilentWhenEmpty, FalseSuccess;
    if msgs[|msgs| - 1].rd {
      events := FlaggedRaceRun(s, msgs, c, Zeros);
    } else {
      events := FlaggedWriteRun(s, msgs, c, Zeros);
    }
  }
}
