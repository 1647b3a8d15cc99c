/** What a returned num is worth: exactly when it is true, for which lists it can be
    false, and which lists can get one at all. */
module XiicSuccess {
  import opened XiicDevice
  import opened XiicSpec
  import opened XiicCursor
  import opened XiicTransfer
  import opened XiicHandler
  import opened XiicReads
  import opened XiicTimeOut
  import opened XiicProgress
  import opened XiicRuns
  import opened XiicBnb
  import opened XiicRace
  import opened XiicEmpty

  // ----- Without bytes for empty reads only time-outs lead astray -----

  predicate OnlyTimedOut(h: Hw) {
    h.timedOut || !h.stray
  }

  lemma StepOnlyTimesOut(s: State, e: Event, clkOk: bool)
    requires Inv(s) && OnlyTimedOut(s.h) && SilentWhenEmpty(s.d.sent, s.d.dynamic, s.h.chip.emptyRead)
    ensures var r := Step(s, e, clkOk); OnlyTimedOut(r.h) && r.h.chip == s.h.chip
  {
    hide Process, Inv, SilentWhenEmpty;
    if e.Interrupt? {
      ProcessEmptyRead(s, clkOk);
      ProcessKeepsAstray(s, clkOk);
      if !s.h.timedOut {
        ProcessSilent(s, clkOk);
      }
    }
  }

  lemma {:induction false} RunOnlyTimesOut(s: State, events: seq<Event>, clkOk: bool)
    requires Inv(s) && OnlyTimedOut(s.h) && SilentWhenEmpty(s.d.sent, s.d.dynamic, s.h.chip.emptyRead)
    ensures OnlyTimedOut(Run(s, events, clkOk).h)
    decreases |events|
  {
    hide Step, Inv, SilentWhenEmpty, OnlyTimedOut;
    if events != [] {
      InvHasCursor(s);
      StepKeepsInv(s, events[0], clkOk);
      StepKeepsCursor(s, events[0], clkOk);
      StepOnlyTimesOut(s, events[0], clkOk);
      RunOnlyTimesOut(Step(s, events[0], clkOk), events[1..], clkOk);
    }
  }

  lemma StartOnlyTimesOut(s: State, msgs: seq<Msg>, c: Config, stuck: (bool, bool))
    requires msgs != [] && StartXferRet(s, c, stuck).Ok? && !s.d.blockRead
    requires ValidTransfer(msgs, UsesDynamic(msgs, c.readBroken))
    ensures var r := StartXfer(s, msgs, c, stuck);
            && r.h.chip == s.h.chip
            && (SilentWhenEmpty(msgs, UsesDynamic(msgs, c.readBroken), s.h.chip.emptyRead) ==> !r.h.stray)
            && (UsesDynamic(msgs, c.readBroken) ==> !r.h.timedOut)
  {
    hide StartNext, ReinitHw, ClearHistory, UsesDynamic, Submit, Boundary, SilentWhenEmpty;
    var h1 := FreedHw(s.h, c, stuck);
    var t := State(Submit(s.d, msgs, c.readBroken), ReinitHw(ClearHistory(h1), c.clkOk));
    assert StartXfer(s, msgs, c, stuck) == StartNext(t);
    SubmittedIsBoundary(s.d, h1, msgs, c);
    SubmitFields(s.d, msgs, c);
    ClearFields(h1, c.clkOk);
    ReinitKeepsBus(s.h, c.clkOk);
    BoundaryTx(t, 0);
    StartStray(t);
    if SilentWhenEmpty(msgs, UsesDynamic(msgs, c.readBroken), s.h.chip.emptyRead) {
      StartSilent(t, 0);
    }
    if UsesDynamic(msgs, c.readBroken) {
      DynamicNeverWaits(t);
    }
  }

  // ----- When a returned num is true -----

  /** The list ends in an empty message and a read for which bytes are clocked that it does
      not ask for: it may be done at the instant it is reported, but not the one after. */
  predicate RacyEmpty(msgs: seq<Msg>, dynamic: bool, emptyRead: nat) {
    && |msgs| >= 2 && msgs[|msgs| - 2].len == 0
    && ClockedEmpty(msgs[|msgs| - 1], dynamic, emptyRead)
  }

  /** If the list has a safe end, a returned num is true if and only if no wait for
      TX_EMPTY has timed out and no byte is clocked for a read that asks for none. */
  lemma SuccessIff(s: State, msgs: seq<Msg>, c: Config, stuck: (bool, bool), events: seq<Event>)
    requires msgs != [] && StartXferRet(s, c, stuck).Ok? && !s.d.blockRead
    requires ValidTransfer(msgs, UsesDynamic(msgs, c.readBroken))
    requires SafeEnd(msgs) && !RacyEmpty(msgs, UsesDynamic(msgs, c.readBroken), s.h.chip.emptyRead)
    ensures var r := Run(StartXfer(s, msgs, c, stuck), events, c.clkOk);
            XferRet(r).Ok? ==>
              (AllDone(r) <==> && !r.h.timedOut
                               && SilentWhenEmpty(msgs, UsesDynamic(msgs, c.readBroken), s.h.chip.emptyRead))
  {
    hide StartXfer, Run, AllDone, ValidTransfer, SafeEnd, UsesDynamic, Inv, ClockedEmpty;
    var dyn, s1 := UsesDynamic(msgs, c.readBroken), StartXfer(s, msgs, c, stuck);
    TimeOutLosesWords(s, msgs, c, stuck, events);
    if SilentWhenEmpty(msgs, dyn, s.h.chip.emptyRead) {
      StartXferEstablishes(s, msgs, c, stuck);
      StartXferSetsCursor(s, msgs, c, stuck);
      StartOnlyTimesOut(s, msgs, c, stuck);
      RunOnlyTimesOut(s1, events, c.clkOk);
      SafeListIsSound(s, msgs, c, stuck, events);
    } else {
      var j :| 0 <= j < |msgs| && ClockedEmpty(msgs[j], dyn, s.h.chip.emptyRead);
      ClockedEmptyNeverDone(s, msgs, c, stuck, events, j);
    }
  }

  // ----- Which lists can be reported falsely -----

  /** Success, no time-out, and not everything done. */
  predicate FalseSuccess(r: State) {
    XferRet(r).Ok? && !r.h.timedOut && !AllDone(r)
  }

  lemma FindUnasked(msgs: seq<Msg>, k: int) returns (j: nat)
    requires k <= |msgs| && !ReadsAsk(msgs, k)
    ensures j < k && EmptyRead(msgs[j])
  {
    j :| 0 <= j < k && j < |msgs| && msgs[j].rd && msgs[j].len <= 0;
  }

  lemma EarlierIsNotRaceable(msgs: seq<Msg>, j: nat)
    requires j < |msgs| - 1
    ensures !Raceable(msgs, j)
  {
  }

  /** An empty read gets no byte in dynamic mode on a silent bus, and else never. */
  lemma EmptyIsSilent(msgs: seq<Msg>, j: nat, dynamic: bool, emptyRead: nat)
    requires j < |msgs| && EmptyRead(msgs[j]) && SilentWhenEmpty(msgs, dynamic, emptyRead)
    ensures dynamic && emptyRead == 0
  {
  }

  /** A list without a safe end has equal lengths there, and its last message asks. */
  lemma UnsafeEnd(msgs: seq<Msg>)
    requires !SafeEnd(msgs)
    ensures EqualEnd(msgs) && !FitsAtOnce(msgs[|msgs| - 1])
  {
  }

  /** With no block-read flag left over, all waits in time and no bytes clocked for empty
      reads: some run reports success falsely if and only if the list has no safe end, every
      read before its last message asks for bytes, and "bus not busy" is enabled before
      that message is started, as it always is in dynamic mode. */
  lemma FalseSuccessIff(s: State, msgs: seq<Msg>, c: Config)
    requires CanStart(s, msgs, c) && !s.d.blockRead
    ensures (exists events ::
               FalseSuccess(Run(StartXfer(s, msgs, c, (false, false)), events, c.clkOk)))
       <==> && !SafeEnd(msgs) && ReadsAsk(msgs, |msgs| - 1)
            && SeesFree(s.h, msgs, UsesDynamic(msgs, c.readBroken))
  {
    hide StartXfer, Run, UsesDynamic, ReadsAsk, SafeEnd, FitsAtOnce, EqualEnd, EmptyRead, Raceable,
         AllDone, SilentWhenEmpty, SeesFree;
    if !SafeEnd(msgs) && ReadsAsk(msgs, |msgs| - 1)
       && SeesFree(s.h, msgs, UsesDynamic(msgs, c.readBroken)) {
      UnsafeEnd(msgs);
      var events := RaceRun(s, msgs, c, Zeros);
      assert FalseSuccess(Run(StartXfer(s, msgs, c, (false, false)), events, c.clkOk));
    } else {
      forall events
        ensures !FalseSuccess(Run(StartXfer(s, msgs, c, (false, false)), events, c.clkOk))
      {
        NoFalseSuccess(s, msgs, c, events);
      }
    }
  }

  /** Slaves that send zeros. */
  function Zeros(i: nat): Slave {
    Slave(j => 0, Silent)
  }

  lemma NoFalseSuccess(s: State, msgs: seq<Msg>, c: Config, events: seq<Event>)
    requires CanStart(s, msgs, c) && !s.d.blockRead
    requires || SafeEnd(msgs) || !ReadsAsk(msgs, |msgs| - 1)
             || !SeesFree(s.h, msgs, UsesDynamic(msgs, c.readBroken))
    ensures !FalseSuccess(Run(StartXfer(s, msgs, c, (false, false)), events, c.clkOk))
  {
    hide StartXfer, Run, UsesDynamic, ReadsAsk, SafeEnd, EmptyRead, Raceable, AllDone, SilentWhenEmpty,
         Inv, HeldBus, SeesFree, BnbOff;
    var s1, dynamic := StartXfer(s, msgs, c, (false, false)), UsesDynamic(msgs, c.readBroken);
    StartXferEstablishes(s, msgs, c, (false, false));
    StartXferSetsCursor(s, msgs, c, (false, false));
    StartOnlyTimesOut(s, msgs, c, (false, false));
    RunOnlyTimesOut(s1, events, c.clkOk);
    if SafeEnd(msgs) {
      SafeListIsSound(s, msgs, c, (false, false), events);
    } else if !SeesFree(s.h, msgs, dynamic) {
      StartedBnb(s, msgs, c);
      CursorNotWarned(s1);
      BnbOffNeverWarns(s1, events, c.clkOk);
      SuccessIsSound(s, msgs, c, (false, false), events);
    } else {
      var j := FindUnasked(msgs, |msgs| - 1);
      EarlierIsNotRaceable(msgs, j);
      EmptyIsSilent(msgs, j, dynamic, s.h.chip.emptyRead);
      EmptyReadNeverSucceeds(s, msgs, c, (false, false), events, j);
    }
  }

  // ----- Which lists can succeed at all -----

  /** Every empty read is the last message, after a message without bytes. */
  predicate CanSucceed(msgs: seq<Msg>) {
    forall j :: 0 <= j < |msgs| && EmptyRead(msgs[j]) ==> Raceable(msgs, j)
  }

  lemma CanSucceedCases(msgs: seq<Msg>)
    requires msgs != [] && CanSucceed(msgs)
    ensures NonEmptyReads(msgs) || (EqualEnd(msgs) && ReadsAsk(msgs, |msgs| - 1))
  {
    if !NonEmptyReads(msgs) {
      var j := FindUnasked(msgs, |msgs|);
      assert Raceable(msgs, j);
    }
  }

  /** In dynamic mode on a silent bus: some run returns success if and only if every empty
      read of the list is its last message and follows another one without bytes. */
  lemma SuccessPossibleIff(s: State, msgs: seq<Msg>, c: Config)
    requires CanStart(s, msgs, c) && !s.d.blockRead && UsesDynamic(msgs, c.readBroken)
    requires s.h.chip.emptyRead == 0
    ensures (exists events ::
               XferRet(Run(StartXfer(s, msgs, c, (false, false)), events, c.clkOk)).Ok?)
       <==> CanSucceed(msgs)
  {
    hide StartXfer, Run, UsesDynamic, EmptyRead, Raceable, SilentWhenEmpty, CanSucceed, BusRounds,
         AllDone, ReadsAsk, EqualEnd;
    if CanSucceed(msgs) {
      CanSucceedCases(msgs);
      if NonEmptyReads(msgs) {
        var n := EveryTransferEnds(s, msgs, c, Zeros);
        var events := RoundsAreRun(StartXfer(s, msgs, c, (false, false)), Zeros, n);
        ZerosSucceed(BusRounds(StartXfer(s, msgs, c, (false, false)), Zeros, n), msgs);
        assert XferRet(Run(StartXfer(s, msgs, c, (false, false)), events, true)).Ok?;
      } else {
        var events := RaceRun(s, msgs, c, Zeros);
        assert XferRet(Run(StartXfer(s, msgs, c, (false, false)), events, c.clkOk)).Ok?;
      }
    } else {
      var j := FindHopeless(msgs);
      forall events
        ensures !XferRet(Run(StartXfer(s, msgs, c, (false, false)), events, c.clkOk)).Ok?
      {
        EmptyReadNeverSucceeds(s, msgs, c, (false, false), events, j);
      }
    }
  }

  lemma ZerosSucceed(r: State, msgs: seq<Msg>)
    requires msgs != [] && Outcome(r, msgs, Zeros)
    ensures XferRet(r).Ok?
  {
    hide AllDone;
  }

  lemma FindHopeless(msgs: seq<Msg>) returns (j: nat)
    requires !CanSucceed(msgs)
    ensures j < |msgs| && EmptyRead(msgs[j]) && !Raceable(msgs, j)
  {
    hide EmptyRead, Raceable;
    j :| 0 <= j < |msgs| && EmptyRead(msgs[j]) && !Raceable(msgs, j);
  }
}
