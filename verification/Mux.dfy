/** The list of published muxes. Any number of threads probe muxes, remove them and
    transfer through them; each step below is one access to shared state. */
module Mux {
  import opened Wrappers

  const MAX_CHANNELS: int := 8

  /** What becomes of a probed mux. Bound: on the list. */
  datatype Stage = Probing | Failed | Bound | Removed

  /** struct fpga_mux. added is muxc->num_adapters, reg the channel select register;
      owner is the thread that probes or removes the device, of which the driver
      core allows one at a time. */
  datatype Mux = Mux(pdev: nat, master: nat, channels: nat, added: nat, reg: nat,
                     stage: Stage, owner: Option<nat>)

  /** Where a thread is. */
  datatype Pc =
    | Idle
    | Adding(m: nat)                       // fpga_mux_probe: the loop over the channels
    | Undoing(m: nat)                      // ... a channel could not be added
    | Publish(m: nat)                      // ... mutex_lock
    | Publishing(m: nat)                   // ... list_add_tail
    | Published(m: nat)                    // ... mutex_unlock
    | Unlink(m: nat)                       // fpga_mux_remove: mutex_lock
    | Unlinking(m: nat)                    // ... list_del
    | Unlinked(m: nat)                     // ... mutex_unlock
    | Deleting(m: nat)                     // ... i2c_mux_del_adapters
    | Seek(key: (nat, nat), ch: nat)       // nh_fpga_mux_channel_xfer: mutex_lock
    | At(key: (nat, nat), ch: nat, pos: nat)                // ... at a list entry
    | InXfer(key: (nat, nat), ch: nat, m: nat)              // ... in i2c_transfer
    | Leave(key: (nat, nat), ch: nat, transferred: bool)    // ... mutex_unlock

  /** muxes holds every mux ever allocated; an adapter is a mux and a channel. */
  datatype State = State(
    muxes: seq<Mux>,
    list: seq<nat>,
    lock: Option<nat>,
    live: set<(nat, nat)>,
    threads: map<nat, Pc>)

  /** struct fpga_mux_platform_data */
  datatype Platform = Platform(hasReg: bool, channels: int, pdev: nat, master: nat)

  /** What a thread does next. Go takes the next step of its current call; ok says
      whether adding a channel adapter succeeds. */
  datatype Action =
    | StartProbe(pdata: Option<Platform>)
    | StartRemove(m: nat)
    | StartXfer(pdev: nat, master: nat, ch: nat)
    | Go(ok: bool)

  const INIT: State := State([], [], None, {}, map[])

  function PcOf(s: State, t: nat): Pc {
    if t in s.threads then s.threads[t] else Idle
  }

  function To(s: State, t: nat, pc: Pc): State {
    s.(threads := s.threads[t := pc])
  }

  function Set(s: State, m: nat, x: Mux): State {
    if m < |s.muxes| then s.(muxes := s.muxes[m := x]) else s
  }

  predicate Matches(s: State, m: nat, key: (nat, nat)) {
    m < |s.muxes| && s.muxes[m].pdev == key.0 && s.muxes[m].master == key.1
  }

  /** fpga_mux_select: the select field is 3 bits wide. */
  function SelectBits(ch: nat): nat {
    ch % 8
  }

  // ----- fpga_mux_probe -----

  predicate Accepts(pdata: Option<Platform>) {
    pdata.Some? && pdata.value.hasReg && 0 < pdata.value.channels <= MAX_CHANNELS
  }

  function Probe(s: State, t: nat, pdata: Option<Platform>): State {
    if !Accepts(pdata) then s
    else
      var p := pdata.value;
      To(s.(muxes := s.muxes + [Mux(p.pdev, p.master, p.channels, 0, 0, Probing, Some(t))]),
         t, Adding(|s.muxes|))
  }

  function AddChannel(s: State, t: nat, m: nat, ok: bool): State
    requires m < |s.muxes|
  {
    var x := s.muxes[m];
    if !ok then
      To(Set(s, m, x.(stage := Failed)), t, Undoing(m))
    else
      var y := x.(added := x.added + 1);
      To(Set(s, m, y).(live := s.live + {(m, x.added)}),
         t, if y.added < x.channels then Adding(m) else Publish(m))
  }

  /** One adapter of i2c_mux_del_adapters, last one first. */
  function DeleteOne(s: State, t: nat, m: nat): State
    requires m < |s.muxes|
  {
    var x := s.muxes[m];
    if x.added == 0 then To(Set(s, m, x.(owner := None)), t, Idle)
    else Set(s, m, x.(added := x.added - 1)).(live := s.live - {(m, x.added - 1)})
  }

  // ----- The lock and the list -----

  function Lock(s: State, t: nat, pc: Pc): State {
    if s.lock.None? then To(s.(lock := Some(t)), t, pc) else s
  }

  function Unlock(s: State, t: nat, pc: Pc): State {
    To(s.(lock := None), t, pc)
  }

  /** list_del */
  function Without(list: seq<nat>, m: nat): seq<nat> {
    if list == [] then []
    else if list[0] == m then list[1..]
    else [list[0]] + Without(list[1..], m)
  }

  // ----- nh_fpga_mux_channel_xfer -----

  function Visit(s: State, t: nat, key: (nat, nat), ch: nat, pos: nat): State {
    if pos >= |s.list| then To(s, t, Leave(key, ch, false))
    else
      var m := s.list[pos];
      if !Matches(s, m, key) then To(s, t, At(key, ch, pos + 1))
      else if ch < s.muxes[m].added then
        To(Set(s, m, s.muxes[m].(reg := SelectBits(ch))), t, InXfer(key, ch, m))
      else To(s, t, Leave(key, ch, false))
  }

  // ----- One step -----

  function Step(s: State, t: nat, a: Action): State {
    match PcOf(s, t)
    case Idle =>
      (match a
       case StartProbe(pdata) => Probe(s, t, pdata)
       case StartRemove(m) =>
         if m < |s.muxes| && s.muxes[m].stage == Bound && s.muxes[m].owner.None?
         then To(Set(s, m, s.muxes[m].(owner := Some(t))), t, Unlink(m)) else s
       case StartXfer(pdev, master, ch) => To(s, t, Seek((pdev, master), ch))
       case Go(_) => s)
    case Adding(m) => if a.Go? && m < |s.muxes| then AddChannel(s, t, m, a.ok) else s
    case Undoing(m) => if m < |s.muxes| then DeleteOne(s, t, m) else s
    case Publish(m) => Lock(s, t, Publishing(m))
    case Publishing(m) =>
      if m < |s.muxes| then
        To(Set(s, m, s.muxes[m].(stage := Bound)).(list := s.list + [m]), t, Published(m))
      else s
    case Published(m) =>
      if m < |s.muxes| then Unlock(Set(s, m, s.muxes[m].(owner := None)), t, Idle) else s
    case Unlink(m) => Lock(s, t, Unlinking(m))
    case Unlinking(m) =>
      if m < |s.muxes| then
        To(Set(s, m, s.muxes[m].(stage := Removed)).(list := Without(s.list, m)), t, Unlinked(m))
      else s
    case Unlinked(m) => Unlock(s, t, Deleting(m))
    case Deleting(m) => if m < |s.muxes| then DeleteOne(s, t, m) else s
    case Seek(key, ch) => Lock(s, t, At(key, ch, 0))
    case At(key, ch, pos) => Visit(s, t, key, ch, pos)
    case InXfer(key, ch, m) => To(s, t, Leave(key, ch, true))
    case Leave(key, ch, _) => Unlock(s, t, Idle)
  }

  function Run(s: State, steps: seq<(nat, Action)>): State
    decreases |steps|
  {
    if steps == [] then s else Run(Step(s, steps[0].0, steps[0].1), steps[1..])
  }

  // ----- The invariant -----

  predicate Holds(pc: Pc) {
    pc.Publishing? || pc.Published? || pc.Unlinking? || pc.Unlinked? || pc.At? || pc.InXfer?
    || pc.Leave?
  }

  /** t works on mux m, which is in the given stage. */
  predicate Owns(s: State, t: nat, m: nat, stage: Stage) {
    m < |s.muxes| && s.muxes[m].owner == Some(t) && s.muxes[m].stage == stage
  }

  predicate NoMatchBefore(s: State, key: (nat, nat), pos: nat) {
    pos <= |s.list| && forall i :: 0 <= i < pos ==> !Matches(s, s.list[i], key)
  }

  /** m is the first entry for the key. */
  predicate First(s: State, key: (nat, nat), m: nat) {
    exists i :: 0 <= i < |s.list| && s.list[i] == m && Matches(s, m, key)
                && NoMatchBefore(s, key, i)
  }

  /** Is there a channel to transfer on? */
  ghost predicate Reachable(s: State, key: (nat, nat), ch: nat) {
    exists m: nat :: First(s, key, m) && ch < s.muxes[m].channels
  }

  ghost predicate ThreadOk(s: State, t: nat) {
    match PcOf(s, t)
    case Idle => true
    case Adding(m) => Owns(s, t, m, Probing) && s.muxes[m].added < s.muxes[m].channels
    case Undoing(m) => Owns(s, t, m, Failed)
    case Publish(m) => Owns(s, t, m, Probing) && s.muxes[m].added == s.muxes[m].channels
    case Publishing(m) => Owns(s, t, m, Probing) && s.muxes[m].added == s.muxes[m].channels
    case Published(m) => Owns(s, t, m, Bound)
    case Unlink(m) => Owns(s, t, m, Bound)
    case Unlinking(m) => Owns(s, t, m, Bound)
    case Unlinked(m) => Owns(s, t, m, Removed)
    case Deleting(m) => Owns(s, t, m, Removed)
    case Seek(_, _) => true
    case At(key, ch, pos) => NoMatchBefore(s, key, pos)
    case InXfer(key, ch, m) =>
      First(s, key, m) && ch < s.muxes[m].channels && s.muxes[m].reg == ch
    case Leave(key, ch, transferred) => transferred == Reachable(s, key, ch)
  }

  /** The list holds the bound muxes, each once. */
  ghost predicate ListOk(s: State) {
    && (forall i, j :: 0 <= i < j < |s.list| ==> s.list[i] != s.list[j])
    && (forall m: nat :: m in s.list <==> m < |s.muxes| && s.muxes[m].stage == Bound)
  }

  /** A bound mux has all its adapters; one that nobody works on any more has none. */
  predicate CountOk(x: Mux) {
    && 0 < x.channels <= 8 && x.added <= x.channels
    && (x.stage == Bound ==> x.added == x.channels)
    && (x.stage != Bound && x.owner.None? ==> x.added == 0)
  }

  ghost predicate CountsOk(s: State) {
    forall m :: 0 <= m < |s.muxes| ==> CountOk(s.muxes[m])
  }

  /** The live adapters are those counted. */
  ghost predicate LiveOk(s: State) {
    forall m: nat, c: nat :: (m, c) in s.live <==> m < |s.muxes| && c < s.muxes[m].added
  }

  /** The mux that a probe or remove is about. */
  function Work(pc: Pc): Option<nat> {
    if pc.Adding? || pc.Undoing? || pc.Publish? || pc.Publishing? || pc.Published?
       || pc.Unlink? || pc.Unlinking? || pc.Unlinked? || pc.Deleting?
    then Some(pc.m) else None
  }

  ghost predicate OwnersOk(s: State) {
    forall m :: 0 <= m < |s.muxes| && s.muxes[m].owner.Some? ==>
      Work(PcOf(s, s.muxes[m].owner.value)) == Some(m)
  }

  ghost predicate LockOk(s: State) {
    forall t: nat :: Holds(PcOf(s, t)) <==> s.lock == Some(t)
  }

  ghost predicate Inv(s: State) {
    && ListOk(s) && CountsOk(s) && LiveOk(s) && LockOk(s) && OwnersOk(s)
    && (forall t: nat :: ThreadOk(s, t))
  }

  /** Whoever is transferring does so on a live adapter, and the mux selects its channel. */
  ghost predicate TransfersSafe(s: State) {
    forall t: nat :: PcOf(s, t).InXfer? ==>
      && (PcOf(s, t).m, PcOf(s, t).ch) in s.live
      && PcOf(s, t).m < |s.muxes| && s.muxes[PcOf(s, t).m].reg == PcOf(s, t).ch
  }

  // ----- Steps -----

  /** What a step by t leaves alone: other threads, the keys of muxes, the muxes that
      others own; and, without the lock, the list and the select registers. */
  ghost predicate Frame(s: State, r: State, t: nat) {
    && (forall u: nat :: u != t ==> PcOf(r, u) == PcOf(s, u))
    && |s.muxes| <= |r.muxes|
    && (forall m :: |s.muxes| <= m < |r.muxes| ==> r.muxes[m].owner == Some(t))
    && (forall m :: 0 <= m < |s.muxes| ==> MuxFrame(s.muxes[m], r.muxes[m], t))
    && (s.lock != Some(t) ==> r.list == s.list
                              && forall m :: 0 <= m < |s.muxes| ==> r.muxes[m].reg == s.muxes[m].reg)
  }

  predicate MuxFrame(x: Mux, y: Mux, t: nat) {
    && y.pdev == x.pdev && y.master == x.master && y.channels == x.channels
    && (x.owner.Some? && x.owner.value != t ==>
          y.owner == x.owner && y.stage == x.stage && y.added == x.added)
    && (y.owner.Some? && y.owner.value != t ==> x.owner == y.owner)
  }

  lemma StepFrame(s: State, t: nat, a: Action)
    requires Inv(s)
    ensures Frame(s, Step(s, t, a), t)
  {
    hide ListOk, CountsOk, LiveOk, OwnersOk, Step, MuxFrame, ThreadOk;
    assert ThreadOk(s, t);
    ThreadsFrame(s, t, a);
    var r := Step(s, t, a);
    forall m | 0 <= m < |s.muxes|
      ensures MuxFrame(s.muxes[m], r.muxes[m], t)
      ensures s.lock != Some(t) ==> r.muxes[m].reg == s.muxes[m].reg
    {
      StepMuxFrame(s, t, a, m);
    }
  }

  predicate OneMuxFrame(s: State, r: State, t: nat, m: nat) {
    m < |s.muxes| <= |r.muxes| && MuxFrame(s.muxes[m], r.muxes[m], t)
    && (s.lock != Some(t) ==> r.muxes[m].reg == s.muxes[m].reg)
  }

  lemma ThreadsFrame(s: State, t: nat, a: Action)
    requires ThreadOk(s, t) && LockOk(s)
    ensures var r := Step(s, t, a);
            && (forall u: nat :: u != t ==> PcOf(r, u) == PcOf(s, u))
            && |s.muxes| <= |r.muxes|
            && (forall m :: |s.muxes| <= m < |r.muxes| ==> r.muxes[m].owner == Some(t))
            && (s.lock != Some(t) ==> r.list == s.list)
  {
    hide First, Reachable, NoMatchBefore;
  }

  lemma StepMuxFrame(s: State, t: nat, a: Action, m: nat)
    requires ThreadOk(s, t) && LockOk(s) && m < |s.muxes|
    ensures OneMuxFrame(s, Step(s, t, a), t, m)
  {
    hide First, Reachable, NoMatchBefore;
    assert Holds(PcOf(s, t)) <==> s.lock == Some(t);
  }

  /** The search conditions depend on the list and the keys only. */
  lemma SearchFrame(s: State, r: State, key: (nat, nat))
    requires ListOk(s) && r.list == s.list && |s.muxes| <= |r.muxes|
    requires forall m :: 0 <= m < |s.muxes| ==>
               r.muxes[m].pdev == s.muxes[m].pdev && r.muxes[m].master == s.muxes[m].master
               && r.muxes[m].channels == s.muxes[m].channels
    ensures forall pos: nat :: NoMatchBefore(s, key, pos) <==> NoMatchBefore(r, key, pos)
    ensures forall m: nat :: First(s, key, m) <==> First(r, key, m)
    ensures forall ch: nat :: Reachable(s, key, ch) <==> Reachable(r, key, ch)
  {
    forall i | 0 <= i < |s.list| ensures Matches(s, s.list[i], key) <==> Matches(r, s.list[i], key) {
      assert s.list[i] in s.list;
    }
    forall m: nat ensures First(s, key, m) <==> First(r, key, m) {
      if First(s, key, m) {
        var i :| 0 <= i < |s.list| && s.list[i] == m && Matches(s, m, key) && NoMatchBefore(s, key, i);
        assert NoMatchBefore(r, key, i);
      }
      if First(r, key, m) {
        var i :| 0 <= i < |r.list| && r.list[i] == m && Matches(r, m, key) && NoMatchBefore(r, key, i);
        assert NoMatchBefore(s, key, i);
      }
    }
  }

  lemma OthersStayOk(s: State, r: State, t: nat, u: nat)
    requires Inv(s) && Frame(s, r, t) && u != t
    ensures ThreadOk(r, u)
  {
    assert ThreadOk(s, u);
    var pc := PcOf(s, u);
    assert Holds(pc) <==> s.lock == Some(u);
    if pc.At? || pc.InXfer? || pc.Leave? {
      SearchFrame(s, r, pc.key);
    }
  }

  lemma WithoutKeepsOthers(list: seq<nat>, m: nat)
    requires forall i, j :: 0 <= i < j < |list| ==> list[i] != list[j]
    ensures var r := Without(list, m);
            && (forall i, j :: 0 <= i < j < |r| ==> r[i] != r[j])
            && (forall x: nat :: x in r <==> x in list && x != m)
  {
    if list != [] && list[0] != m {
      WithoutKeepsOthers(list[1..], m);
      assert forall x: nat :: x in list <==> x == list[0] || x in list[1..];
      var r := Without(list[1..], m);
      assert list[0] !in list[1..];
    } else if list != [] {
      assert forall x: nat :: x in list <==> x == list[0] || x in list[1..];
      assert list[0] !in list[1..];
    }
  }

  /** Only list_add_tail and list_del change the list, and the stage Bound with it. */
  lemma ListMoves(s: State, t: nat, a: Action)
    requires ThreadOk(s, t)
    ensures Step(s, t, a).list == match PcOf(s, t)
                                  case Publishing(m) => s.list + [m]
                                  case Unlinking(m) => Without(s.list, m)
                                  case _ => s.list
  {
    hide First, Reachable, NoMatchBefore, Without;
  }

  lemma StageMoves(s: State, t: nat, a: Action, m: nat)
    requires ThreadOk(s, t)
    ensures var r, pc := Step(s, t, a), PcOf(s, t);
            (m < |r.muxes| && r.muxes[m].stage == Bound) <==>
            (pc == Publishing(m)
             || (m < |s.muxes| && s.muxes[m].stage == Bound && pc != Unlinking(m)))
  {
    hide First, Reachable, NoMatchBefore;
    match PcOf(s, t)
    case Idle =>
    case Adding(_) =>
    case At(_, _, _) =>
    case _ =>
  }

  lemma StepKeepsList(s: State, t: nat, a: Action)
    requires Inv(s)
    ensures ListOk(Step(s, t, a))
  {
    hide CountsOk, LiveOk, OwnersOk, LockOk, First, Reachable, NoMatchBefore, Step;
    assert ThreadOk(s, t);
    ListMoves(s, t, a);
    forall m: nat {
      StageMoves(s, t, a, m);
    }
    if PcOf(s, t).Unlinking? {
      WithoutKeepsOthers(s.list, PcOf(s, t).m);
    }
  }

  lemma StepKeepsCounts(s: State, t: nat, a: Action)
    requires Inv(s)
    ensures CountsOk(Step(s, t, a))
  {
    hide ListOk, LockOk, LiveOk, OwnersOk, ThreadOk, Step;
    assert ThreadOk(s, t);
    var r := Step(s, t, a);
    forall m | 0 <= m < |r.muxes| ensures CountOk(r.muxes[m]) {
      StepKeepsCount(s, t, a, m);
    }
  }

  lemma StepKeepsCount(s: State, t: nat, a: Action, m: nat)
    requires ThreadOk(s, t) && (m < |s.muxes| ==> CountOk(s.muxes[m]))
    ensures var r := Step(s, t, a); m < |r.muxes| ==> CountOk(r.muxes[m])
  {
    hide First, Reachable, NoMatchBefore;
    match PcOf(s, t)
    case Idle =>
    case Adding(_) =>
    case At(_, _, _) =>
    case _ =>
  }

  lemma StepKeepsLive(s: State, t: nat, a: Action)
    requires Inv(s)
    ensures LiveOk(Step(s, t, a))
  {
    hide ListOk, LockOk, OwnersOk, CountsOk, ThreadOk, Step;
    assert ThreadOk(s, t);
    forall m: nat, c: nat {
      AdapterStays(s, t, a, m, c);
    }
  }

  lemma AdapterStays(s: State, t: nat, a: Action, m: nat, c: nat)
    requires ThreadOk(s, t)
    requires (m, c) in s.live <==> m < |s.muxes| && c < s.muxes[m].added
    ensures var r := Step(s, t, a);
            (m, c) in r.live <==> m < |r.muxes| && c < r.muxes[m].added
  {
    hide First, Reachable, NoMatchBefore;
    match PcOf(s, t)
    case Idle =>
    case Adding(_) =>
    case At(_, _, _) =>
    case _ =>
  }

  lemma StepKeepsOwners(s: State, t: nat, a: Action)
    requires Inv(s)
    ensures OwnersOk(Step(s, t, a))
  {
    hide ThreadOk, ListOk, LockOk, LiveOk, CountsOk, Step;
    StepFrame(s, t, a);
    var r := Step(s, t, a);
    forall m | 0 <= m < |r.muxes| && r.muxes[m].owner.Some?
      ensures Work(PcOf(r, r.muxes[m].owner.value)) == Some(m)
    {
      if r.muxes[m].owner == Some(t) {
        StepKeepsWork(s, t, a, m);
      } else {
        assert MuxFrame(s.muxes[m], r.muxes[m], t);
      }
    }
  }

  /** t owns no mux but the one it works on. */
  lemma StepKeepsWork(s: State, t: nat, a: Action, m: nat)
    requires ThreadOk(s, t)
    requires m < |s.muxes| && s.muxes[m].owner == Some(t) ==> Work(PcOf(s, t)) == Some(m)
    ensures var r := Step(s, t, a);
            m < |r.muxes| && r.muxes[m].owner == Some(t) ==> Work(PcOf(r, t)) == Some(m)
  {
    hide First, Reachable, NoMatchBefore;
    match PcOf(s, t)
    case Idle =>
    case Adding(_) =>
    case At(_, _, _) =>
    case _ =>
  }

  lemma StepKeepsLock(s: State, t: nat, a: Action)
    requires Inv(s)
    ensures LockOk(Step(s, t, a))
  {
    hide Step, ThreadOk, CountsOk, LiveOk, OwnersOk, ListOk;
    assert ThreadOk(s, t);
    ThreadsFrame(s, t, a);
    LockMoves(s, t, a);
  }

  /** The lock is taken when free, and given back by its holder. */
  lemma LockMoves(s: State, t: nat, a: Action)
    requires ThreadOk(s, t) && (Holds(PcOf(s, t)) <==> s.lock == Some(t))
    ensures var r := Step(s, t, a);
            && (Holds(PcOf(r, t)) <==> r.lock == Some(t))
            && (r.lock == s.lock || (s.lock.None? && r.lock == Some(t))
                || (s.lock == Some(t) && r.lock.None?))
  {
    hide First, Reachable, NoMatchBefore;
  }

  lemma StepKeepsOwn(s: State, t: nat, a: Action)
    requires Inv(s)
    ensures ThreadOk(Step(s, t, a), t)
  {
    hide LockOk, OwnersOk, LiveOk, First, Reachable;
    assert ThreadOk(s, t);
    match PcOf(s, t)
    case At(key, ch, pos) => VisitIsRight(s, t, key, ch, pos);
    case InXfer(key, ch, m) => XferEnds(s, t, key, ch, m);
    case _ =>
  }

  /** At a list entry: it is passed over, or it is the first match. */
  lemma VisitIsRight(s: State, t: nat, key: (nat, nat), ch: nat, pos: nat)
    requires ListOk(s) && CountsOk(s) && NoMatchBefore(s, key, pos)
    ensures ThreadOk(Visit(s, t, key, ch, pos), t)
  {
    var r := Visit(s, t, key, ch, pos);
    if pos >= |s.list| {
      NothingReachable(s, key, ch);
      SearchFrame(s, r, key);
    } else {
      var m := s.list[pos];
      assert m in s.list;
      SearchFrame(s, r, key);
      if Matches(s, m, key) {
        assert First(s, key, m);
        FirstDecides(s, key, m, ch);
        SmallModulus(ch);
      }
    }
  }

  lemma SmallModulus(ch: nat)
    ensures ch < 8 ==> SelectBits(ch) == ch
  {
  }

  lemma XferEnds(s: State, t: nat, key: (nat, nat), ch: nat, m: nat)
    requires ListOk(s) && First(s, key, m) && ch < s.muxes[m].channels
    ensures ThreadOk(To(s, t, Leave(key, ch, true)), t)
  {
    SearchFrame(s, To(s, t, Leave(key, ch, true)), key);
  }

  lemma NothingReachable(s: State, key: (nat, nat), ch: nat)
    requires NoMatchBefore(s, key, |s.list|)
    ensures !Reachable(s, key, ch)
  {
  }

  /** There is only one first match. */
  lemma FirstDecides(s: State, key: (nat, nat), m: nat, ch: nat)
    requires First(s, key, m)
    ensures Reachable(s, key, ch) <==> ch < s.muxes[m].channels
  {
    if Reachable(s, key, ch) {
      var n: nat :| First(s, key, n) && ch < s.muxes[n].channels;
      var i :| 0 <= i < |s.list| && s.list[i] == m && Matches(s, m, key) && NoMatchBefore(s, key, i);
      var j :| 0 <= j < |s.list| && s.list[j] == n && Matches(s, n, key) && NoMatchBefore(s, key, j);
      assert i == j;
    }
  }

  lemma StepKeepsInv(s: State, t: nat, a: Action)
    requires Inv(s)
    ensures Inv(Step(s, t, a))
  {
    hide ListOk, CountsOk, LiveOk, LockOk, OwnersOk, ThreadOk, Step, Frame;
    StepFrame(s, t, a);
    StepKeepsList(s, t, a);
    StepKeepsCounts(s, t, a);
    StepKeepsLive(s, t, a);
    StepKeepsOwners(s, t, a);
    StepKeepsLock(s, t, a);
    StepKeepsOwn(s, t, a);
    forall u: nat | u != t ensures ThreadOk(Step(s, t, a), u) {
      OthersStayOk(s, Step(s, t, a), t, u);
    }
  }

  lemma {:induction false} RunKeepsInv(s: State, steps: seq<(nat, Action)>)
    requires Inv(s)
    ensures Inv(Run(s, steps))
    decreases |steps|
  {
    hide Inv, Step;
    if steps != [] {
      StepKeepsInv(s, steps[0].0, steps[0].1);
      RunKeepsInv(Step(s, steps[0].0, steps[0].1), steps[1..]);
    }
  }

  // ----- Main results -----

  /** In every interleaving of any number of probes, removes and transfers: a listed
      mux has all its adapters, a transfer is on a live adapter of a listed mux
      which selects that very channel, and a transfer is refused exactly if no
      listed mux has the channel. */
  lemma TransfersAreSafe(steps: seq<(nat, Action)>)
    ensures var s := Run(INIT, steps);
            && TransfersSafe(s)
            && (forall m :: m in s.list ==> Whole(s, m))
            && (forall t: nat :: PcOf(s, t).Leave? ==>
                  (PcOf(s, t).transferred <==> Reachable(s, PcOf(s, t).key, PcOf(s, t).ch)))
  {
    RunKeepsInv(INIT, steps);
    var s := Run(INIT, steps);
    forall t: nat ensures PcOf(s, t).InXfer? ==> SafeXfer(s, t)
      ensures PcOf(s, t).Leave? ==>
                (PcOf(s, t).transferred <==> Reachable(s, PcOf(s, t).key, PcOf(s, t).ch))
    {
      assert ThreadOk(s, t);
      if PcOf(s, t).InXfer? {
        XferIsSafe(s, t);
      }
    }
  }

  /** Every channel adapter of the mux is alive. */
  predicate Whole(s: State, m: nat) {
    m < |s.muxes| && forall c :: 0 <= c < s.muxes[m].channels ==> (m, c) in s.live
  }

  predicate SafeXfer(s: State, t: nat) {
    PcOf(s, t).InXfer? &&
      var pc := PcOf(s, t);
      (pc.m, pc.ch) in s.live && pc.m < |s.muxes| && s.muxes[pc.m].reg == pc.ch
  }

  lemma XferIsSafe(s: State, t: nat)
    requires Inv(s) && PcOf(s, t).InXfer?
    ensures SafeXfer(s, t) && PcOf(s, t).m in s.list
  {
    hide LockOk, OwnersOk;
    assert ThreadOk(s, t);
    assert PcOf(s, t).m in s.list;
  }

  /** While a thread transfers, no step of any other thread can delete an adapter of
      that mux, take the mux off the list, or select another channel. */
  lemma TransferIsUndisturbed(s: State, t: nat, a: Action, u: nat)
    requires Inv(s) && PcOf(s, u).InXfer? && t != u
    ensures var m, r := PcOf(s, u).m, Step(s, t, a);
            && PcOf(r, u) == PcOf(s, u) && m in r.list && SafeXfer(r, u)
            && Whole(r, m)
  {
    hide ThreadOk, Step, ListOk, CountsOk, LiveOk, LockOk, OwnersOk;
    StepKeepsInv(s, t, a);
    StepFrame(s, t, a);
    XferIsSafe(s, u);
    var r := Step(s, t, a);
    XferIsSafe(r, u);
    ListedIsWhole(r, PcOf(s, u).m);
  }

  lemma ListedIsWhole(s: State, m: nat)
    requires Inv(s) && m in s.list
    ensures Whole(s, m)
  {
  }

  /** A probe that has failed never publishes its mux, whatever happens later. */
  lemma {:induction false} FailedNeverListed(s: State, m: nat, steps: seq<(nat, Action)>)
    requires Inv(s) && m < |s.muxes| && s.muxes[m].stage == Failed
    ensures m !in Run(s, steps).list
    decreases |steps|
  {
    hide Step;
    if steps != [] {
      var r := Step(s, steps[0].0, steps[0].1);
      StepKeepsInv(s, steps[0].0, steps[0].1);
      FailedStays(s, m, steps[0].0, steps[0].1);
      FailedNeverListed(r, m, steps[1..]);
    }
  }

  lemma FailedStays(s: State, m: nat, t: nat, a: Action)
    requires Inv(s) && m < |s.muxes| && s.muxes[m].stage == Failed
    ensures var r := Step(s, t, a); m < |r.muxes| && r.muxes[m].stage == Failed
  {
    hide ListOk, CountsOk, LiveOk, LockOk, First, Reachable;
    assert ThreadOk(s, t);
  }

  /** Nothing leaks: once every thread is idle, the live adapters are exactly those of
      the listed muxes. */
  lemma IdleMeansNoLeak(steps: seq<(nat, Action)>)
    requires forall t: nat :: PcOf(Run(INIT, steps), t) == Idle
    ensures var s := Run(INIT, steps);
            forall m: nat, c: nat ::
              (m, c) in s.live <==> m in s.list && m < |s.muxes| && c < s.muxes[m].channels
  {
    RunKeepsInv(INIT, steps);
    var s := Run(INIT, steps);
    forall m | 0 <= m < |s.muxes| ensures s.muxes[m].owner.None? {
    }
  }

  // ----- A thread that runs alone -----

  /** n steps of t, with every channel added. */
  function Gos(t: nat, n: nat): seq<(nat, Action)> {
    if n == 0 then [] else [(t, Go(true))] + Gos(t, n - 1)
  }

  lemma OneGo(s: State, t: nat, n: nat)
    ensures Run(s, Gos(t, n + 1)) == Run(Step(s, t, Go(true)), Gos(t, n))
  {
    assert ([(t, Go(true))] + Gos(t, n))[1..] == Gos(t, n);
  }

  lemma {:induction false} AddsFinish(s: State, t: nat, m: nat)
    requires Inv(s) && s.lock.None? && PcOf(s, t) == Adding(m) && m < |s.muxes|
    ensures var r := Run(s, Gos(t, s.muxes[m].channels - s.muxes[m].added + 3));
            Inv(r) && PcOf(r, t) == Idle && r.lock.None? && m in r.list
    decreases s.muxes[m].channels - s.muxes[m].added
  {
    hide ListOk, CountsOk, LiveOk, LockOk, OwnersOk;
    assert ThreadOk(s, t);
    var s1 := Step(s, t, Go(true));
    StepKeepsInv(s, t, Go(true));
    OneGo(s, t, s.muxes[m].channels - s.muxes[m].added + 2);
    if PcOf(s1, t).Adding? {
      AddsFinish(s1, t, m);
    } else {
      PublishFinishes(s1, t, m);
    }
  }

  lemma PublishFinishes(s: State, t: nat, m: nat)
    requires Inv(s) && s.lock.None? && PcOf(s, t) == Publish(m)
    ensures var r := Run(s, Gos(t, 3));
            Inv(r) && PcOf(r, t) == Idle && r.lock.None? && m in r.list
  {
    hide ListOk, CountsOk, LiveOk, LockOk, OwnersOk;
    assert ThreadOk(s, t);
    var s1 := Step(s, t, Go(true));
    var s2 := Step(s1, t, Go(true));
    OneGo(s, t, 2);
    OneGo(s1, t, 1);
    OneGo(s2, t, 0);
    StepKeepsInv(s, t, Go(true));
    StepKeepsInv(s1, t, Go(true));
    StepKeepsInv(s2, t, Go(true));
  }

  /** A probe of 1 to 8 channels, all of which can be added, ends with its mux listed
      and whole; any other platform data leaves no mux behind. */
  lemma ProbeFinishes(s: State, t: nat, pdata: Option<Platform>)
    requires Inv(s) && s.lock.None? && PcOf(s, t) == Idle
    ensures var s1 := Step(s, t, StartProbe(pdata));
            if pdata.Some? && pdata.value.hasReg && 1 <= pdata.value.channels <= 8 then
              var r, m := Run(s1, Gos(t, pdata.value.channels + 3)), |s.muxes|;
              PcOf(r, t) == Idle && m in r.list && Whole(r, m) && r.muxes[m].channels == pdata.value.channels
              && Matches(r, m, (pdata.value.pdev, pdata.value.master))
            else s1 == s
  {
    hide ListOk, CountsOk, LiveOk, LockOk, OwnersOk, ThreadOk;
    if Accepts(pdata) {
      var s1 := Step(s, t, StartProbe(pdata));
      StepKeepsInv(s, t, StartProbe(pdata));
      AddsFinish(s1, t, |s.muxes|);
      RunKeepsMux(s1, |s.muxes|, Gos(t, pdata.value.channels + 3));
      ListedIsWhole(Run(s1, Gos(t, pdata.value.channels + 3)), |s.muxes|);
    }
  }

  /** Which mux it is never changes. */
  lemma {:induction false} RunKeepsMux(s: State, m: nat, steps: seq<(nat, Action)>)
    requires Inv(s) && m < |s.muxes|
    ensures var r := Run(s, steps);
            m < |r.muxes| && r.muxes[m].channels == s.muxes[m].channels
            && r.muxes[m].pdev == s.muxes[m].pdev && r.muxes[m].master == s.muxes[m].master
    decreases |steps|
  {
    hide Inv, Step;
    if steps != [] {
      StepFrame(s, steps[0].0, steps[0].1);
      StepKeepsInv(s, steps[0].0, steps[0].1);
      RunKeepsMux(Step(s, steps[0].0, steps[0].1), m, steps[1..]);
    }
  }

  /** A remove of a bound mux ends with it off the list and no adapter of it alive. */
  lemma RemoveFinishes(s: State, t: nat, m: nat)
    requires Inv(s) && s.lock.None? && PcOf(s, t) == Idle
    requires m in s.list && m < |s.muxes| && s.muxes[m].owner.None?
    ensures var r := Run(Step(s, t, StartRemove(m)), Gos(t, s.muxes[m].channels + 4));
            PcOf(r, t) == Idle && r.lock.None? && m !in r.list && forall c :: (m, c) !in r.live
  {
    hide LiveOk, LockOk, OwnersOk, ThreadOk;
    var s1 := Step(s, t, StartRemove(m));
    var s2 := Step(s1, t, Go(true));
    var s3 := Step(s2, t, Go(true));
    var s4 := Step(s3, t, Go(true));
    StepKeepsInv(s, t, StartRemove(m));
    StepKeepsInv(s1, t, Go(true));
    StepKeepsInv(s2, t, Go(true));
    StepKeepsInv(s3, t, Go(true));
    OneGo(s1, t, s.muxes[m].channels + 3);
    OneGo(s2, t, s.muxes[m].channels + 2);
    OneGo(s3, t, s.muxes[m].channels + 1);
    DeletesFinish(s4, t, m);
  }

  lemma {:induction false} DeletesFinish(s: State, t: nat, m: nat)
    requires Inv(s) && s.lock.None? && PcOf(s, t) == Deleting(m) && m < |s.muxes|
    ensures var r := Run(s, Gos(t, s.muxes[m].added + 1));
            PcOf(r, t) == Idle && r.lock.None? && m !in r.list && forall c :: (m, c) !in r.live
    decreases s.muxes[m].added
  {
    hide CountsOk, LockOk, OwnersOk;
    assert ThreadOk(s, t);
    var s1 := Step(s, t, Go(true));
    OneGo(s, t, s.muxes[m].added);
    StepKeepsInv(s, t, Go(true));
    if s.muxes[m].added > 0 {
      DeletesFinish(s1, t, m);
    }
  }

  /** After n steps of its own, t transfers if there is such a channel, and else is on its
      way out. */
  ghost predicate Arrives(s: State, t: nat, key: (nat, nat), ch: nat, n: nat) {
    var r := Run(s, Gos(t, n));
    if Reachable(s, key, ch) then
      PcOf(r, t).InXfer? && PcOf(r, t).key == key && PcOf(r, t).ch == ch && SafeXfer(r, t)
      && Returns(Step(r, t, Go(true)), t, true)
    else Returns(r, t, false)
  }

  /** The call leaves with this result, giving the lock back. */
  predicate Returns(s: State, t: nat, transferred: bool) {
    && PcOf(s, t).Leave? && PcOf(s, t).transferred == transferred
    && Step(s, t, Go(true)).lock.None? && PcOf(Step(s, t, Go(true)), t) == Idle
  }

  lemma {:induction false} SearchFinishes(s: State, t: nat, key: (nat, nat), ch: nat, pos: nat) returns (n: nat)
    requires Inv(s) && PcOf(s, t) == At(key, ch, pos)
    ensures Arrives(s, t, key, ch, n)
    decreases |s.list| - pos
  {
    hide ListOk, CountsOk, LiveOk, LockOk, OwnersOk, First, Reachable, NoMatchBefore;
    var r := Step(s, t, Go(true));
    StepKeepsInv(s, t, Go(true));
    assert ThreadOk(s, t) && ThreadOk(r, t);
    SearchFrame(s, r, key);
    if PcOf(r, t).At? {
      var i := SearchFinishes(r, t, key, ch, pos + 1);
      n := i + 1;
      OneGo(s, t, i);
    } else {
      n := 1;
      OneGo(s, t, 0);
      if PcOf(r, t).InXfer? {
        XferIsSafe(r, t);
        FirstDecides(r, key, PcOf(r, t).m, ch);
      }
    }
  }

  /** A transfer that finds the lock free takes place exactly if some listed mux has the
      channel, and comes back. */
  lemma TransferFinishes(s: State, t: nat, pdev: nat, master: nat, ch: nat) returns (n: nat)
    requires Inv(s) && s.lock.None? && PcOf(s, t) == Idle
    ensures Arrives(Step(s, t, StartXfer(pdev, master, ch)), t, (pdev, master), ch, n)
    ensures Reachable(Step(s, t, StartXfer(pdev, master, ch)), (pdev, master), ch)
       <==> Reachable(s, (pdev, master), ch)
  {
    hide ListOk, CountsOk, LiveOk, LockOk, OwnersOk, First, Reachable, NoMatchBefore;
    var key := (pdev, master);
    var s1 := Step(s, t, StartXfer(pdev, master, ch));
    var s2 := Step(s1, t, Go(true));
    StepKeepsInv(s, t, StartXfer(pdev, master, ch));
    StepKeepsInv(s1, t, Go(true));
    SearchFrame(s, s1, key);
    SearchFrame(s1, s2, key);
    var i := SearchFinishes(s2, t, key, ch, 0);
    n := i + 1;
    OneGo(s1, t, i);
  }

  /** The search of nh_fpga_mux_channel_xfer, under the lock. */
  method FindChannel(s: State, pdev: nat, master: nat, ch: nat) returns (found: Option<nat>)
    requires ListOk(s) && CountsOk(s)
    ensures found.Some? ==> First(s, (pdev, master), found.value) && ch < s.muxes[found.value].added
    ensures found.Some? <==> Reachable(s, (pdev, master), ch)
  {
    var key := (pdev, master);
    found := None;
    var i := 0;
    while i < |s.list|
      invariant 0 <= i <= |s.list| && found.None? && NoMatchBefore(s, key, i)
    {
      var m := s.list[i];
      assert m in s.list;
      if s.muxes[m].pdev != pdev || s.muxes[m].master != master {
        i := i + 1;
        continue;
      }
      assert First(s, key, m);
      FirstDecides(s, key, m, ch);
      if ch < s.muxes[m].added {
        found := Some(m);
      }
      return;
    }
    NothingReachable(s, key, ch);
  }
}
