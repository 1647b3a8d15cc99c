/** The life of one I2C controller as the i2c bus notifier sees it: its master adapter
    comes and goes with the xiic driver, its mux client with the master adapter. */
module Notifier {
  import opened Wrappers

  /** A compatibility symlink, i2c-N or channel-K. */
  datatype Link = Bus(nr: nat) | Chan(k: nat)

  /** A mux channel adapter: its channel number (negative: the name has none) and the
      client of the master adapter that it hangs below. */
  datatype Channel = Channel(k: int, owner: nat)

  /** struct nh_fpga_i2c, and what the i2c core has registered below its pdev. */
  datatype State = State(
    bound: bool,                // the aux device's drvdata points to this controller
    hasPdev: bool,              // i2c->pdev
    busNum: int,                // i2c->master_bus_num
    muxClient: Option<nat>,     // i2c->mux_client
    numMux: nat,                // i2c->num_mux_channels
    links: set<Link>,
    master: Option<nat>,        // the live master adapter, by number
    clients: set<nat>,          // clients registered on the master adapter
    channels: map<nat, Channel>,
    next: nat,                  // an id not used before
    created: set<nat>)          // history: clients the notifier has created

  /** After a successful probe, before the xiic driver binds. */
  function Init(numMux: nat): State {
    State(true, true, -1, None, numMux, {}, None, {}, map[], 0, {})
  }

  // ----- The notifier -----

  /** BUS_NOTIFY_ADD_DEVICE for the master adapter. createOk: does
      i2c_new_client_device succeed? */
  function BusAddMaster(s: State, nr: nat, createOk: bool): State {
    if !s.bound then s
    else
      var t := s.(links := s.links + {Bus(nr)}, busNum := nr);
      if t.numMux > 0 && t.muxClient.None? && createOk then
        t.(clients := t.clients + {t.next}, muxClient := Some(t.next),
           created := t.created + {t.next}, next := t.next + 1)
      else t
  }

  function BusAddChannel(s: State, k: int): State {
    if s.bound && k >= 0 then s.(links := s.links + {Chan(k)}) else s
  }

  /** nh_fpga_i2c_bus_del, by kind of device */
  function BusDelClient(s: State, c: nat): State {
    if s.bound && s.muxClient == Some(c) then s.(muxClient := None) else s
  }

  function BusDelMaster(s: State, nr: nat): State {
    if s.bound && s.busNum == nr then s.(links := s.links - {Bus(nr)}, busNum := -1) else s
  }

  function BusDelChannel(s: State, k: int): State {
    if s.bound && k >= 0 then s.(links := s.links - {Chan(k)}) else s
  }

  // ----- What the i2c core does, with the notifications it sends -----

  function ChannelAdd(s: State, owner: nat, k: int): State {
    if owner !in s.clients then s
    else
      BusAddChannel(s.(channels := s.channels[s.next := Channel(k, owner)], next := s.next + 1), k)
  }

  function ChannelDel(s: State, id: nat): State {
    if id !in s.channels then s
    else BusDelChannel(s, s.channels[id].k).(channels := s.channels - {id})
  }

  function Below(s: State, c: nat): set<nat> {
    set id | id in s.channels && s.channels[id].owner == c
  }

  /** The channel adapters below c are deleted one by one. */
  function ChannelsDel(s: State, ids: set<nat>): State {
    s.(links := if s.bound then s.links - ChanLinks(s.channels, ids) else s.links,
       channels := s.channels - ids)
  }

  function ChanLinks(channels: map<nat, Channel>, ids: set<nat>): set<Link> {
    set id | id in ids && id in channels && channels[id].k >= 0 :: Chan(channels[id].k)
  }

  /** A client is unregistered; then its driver deletes the channels below it. */
  function ClientDel(s: State, c: nat): State {
    if c !in s.clients then s
    else ChannelsDel(BusDelClient(s, c).(clients := s.clients - {c}), Below(s, c))
  }

  function ClientAdd(s: State): State {
    if s.master.None? then s else s.(clients := s.clients + {s.next}, next := s.next + 1)
  }

  /** The xiic driver binds. */
  function MasterAdd(s: State, nr: nat, createOk: bool): State {
    if !s.hasPdev || s.master.Some? then s
    else BusAddMaster(s.(master := Some(nr)), nr, createOk)
  }

  /** All clients of the adapter go. */
  function ClientsDel(s: State): State {
    ChannelsDel(s.(clients := {},
                   muxClient := if s.bound && s.muxClient.Some? && s.muxClient.value in s.clients
                                then None else s.muxClient),
                set id | id in s.channels && s.channels[id].owner in s.clients)
  }

  /** The xiic driver unbinds: i2c_del_adapter unregisters the clients first. */
  function MasterDel(s: State): State {
    if s.master.None? then s
    else BusDelMaster(ClientsDel(s), s.master.value).(master := None)
  }

  // ----- nh_fpga_i2c_remove -----

  function DropLinks(s: State): State {
    var t := s.(links := set l | l in s.links && !(l.Chan? && l.k < s.numMux));
    if t.busNum >= 0 then t.(links := t.links - {Bus(t.busNum)}, busNum := -1) else t
  }

  function Remove(s: State): State {
    if !s.bound then s
    else
      var t := DropLinks(s);
      var u := if t.muxClient.Some? then ClientDel(t, t.muxClient.value).(muxClient := None) else t;
      (if u.hasPdev then MasterDel(u).(hasPdev := false) else u).(bound := false)
  }

  // ----- Runs -----

  datatype Event =
    | MasterAdded(nr: nat, createOk: bool)
    | MasterDeleted
    | ClientAdded
    | ClientDeleted(c: nat)
    | ChannelAdded(owner: nat, k: int)
    | ChannelDeleted(id: nat)
    | Removed

  function Step(s: State, e: Event): State {
    match e
    case MasterAdded(nr, createOk) => MasterAdd(s, nr, createOk)
    case MasterDeleted => MasterDel(s)
    case ClientAdded => ClientAdd(s)
    case ClientDeleted(c) => ClientDel(s, c)
    case ChannelAdded(owner, k) => ChannelAdd(s, owner, k)
    case ChannelDeleted(id) => ChannelDel(s, id)
    case Removed => Remove(s)
  }

  function Run(s: State, events: seq<Event>): State
    decreases |events|
  {
    if events == [] then s else Run(Step(s, events[0]), events[1..])
  }

  // ----- The invariant -----

  /** The clients that the notifier created and that are still registered. */
  function OwnClients(s: State): set<nat> {
    s.created * s.clients
  }

  predicate Fresh(s: State) {
    && (forall c :: c in s.clients ==> c < s.next)
    && (forall c :: c in s.created ==> c < s.next)
    && (forall id :: id in s.channels ==> id < s.next)
  }

  /** No device outlives its parent. */
  predicate Nested(s: State) {
    && (s.bound <==> s.hasPdev)
    && (s.master.Some? ==> s.hasPdev)
    && (s.clients != {} ==> s.master.Some?)
    && (forall id :: id in s.channels ==> s.channels[id].owner in s.clients)
  }

  ghost predicate Inv(s: State) {
    && Fresh(s) && Nested(s)
    && OwnClients(s) == (if s.muxClient.Some? then {s.muxClient.value} else {})
    && s.busNum == (if s.master.Some? then s.master.value else -1)
    && (forall nr :: Bus(nr) in s.links <==> s.busNum == nr)
    && (forall k :: Chan(k) in s.links ==> ChannelLives(s, k))
  }

  predicate ChannelLives(s: State, k: nat) {
    exists id :: id in s.channels && s.channels[id].k == k
  }

  // ----- Every step keeps it -----

  lemma ChannelDelKeeps(s: State, id: nat)
    requires Inv(s)
    ensures Inv(ChannelDel(s, id))
  {
    if id in s.channels {
      var r := ChannelDel(s, id);
      forall k | Chan(k) in r.links ensures ChannelLives(r, k) {
        var other := LinkNames(s, k);
        assert other in r.channels;
      }
    }
  }

  /** A link names a live channel. */
  lemma LinkNames(s: State, k: nat) returns (id: nat)
    requires ChannelLives(s, k)
    ensures id in s.channels && s.channels[id].k == k
  {
    id :| id in s.channels && s.channels[id].k == k;
  }

  lemma ChannelAddKeeps(s: State, owner: nat, k: int)
    requires Inv(s)
    ensures Inv(ChannelAdd(s, owner, k))
  {
    if owner in s.clients {
      var r := ChannelAdd(s, owner, k);
      assert s.next in r.channels && r.channels[s.next].k == k;
      forall j | Chan(j) in r.links ensures ChannelLives(r, j) {
        if j != k {
          var id := LinkNames(s, j);
          assert id in r.channels;
        }
      }
    }
  }

  /** Links of deleted channels go with them; the others keep theirs. */
  lemma ChannelsDelLinks(s: State, ids: set<nat>)
    requires s.bound && ids <= s.channels.Keys
    requires forall k :: Chan(k) in s.links ==> ChannelLives(s, k)
    ensures var r := ChannelsDel(s, ids); forall k :: Chan(k) in r.links ==> ChannelLives(r, k)
  {
    var r := ChannelsDel(s, ids);
    forall k | Chan(k) in r.links ensures ChannelLives(r, k) {
      var id := LinkNames(s, k);
      assert id !in ids by {
        assert Chan(k) !in ChanLinks(s.channels, ids);
      }
      assert id in r.channels;
    }
  }

  lemma ClientDelKeeps(s: State, c: nat)
    requires Inv(s)
    ensures Inv(ClientDel(s, c))
  {
    if c in s.clients {
      var t := BusDelClient(s, c).(clients := s.clients - {c});
      assert forall k :: ChannelLives(s, k) <==> ChannelLives(t, k);
      ChannelsDelLinks(t, Below(s, c));
      assert OwnClients(t) == OwnClients(s) - {c};
      assert forall nr :: Bus(nr) !in ChanLinks(s.channels, Below(s, c));
    }
  }

  lemma NoClientNoMux(s: State)
    requires Inv(s) && s.clients == {}
    ensures s.muxClient.None? && OwnClients(s) == {}
  {
    assert forall c :: c !in OwnClients(s);
  }

  lemma ClientsDelKeeps(s: State)
    requires Inv(s)
    ensures Inv(ClientsDel(s))
    ensures var r := ClientsDel(s);
            r.clients == {} && r.channels == map[] && r.muxClient.None?
            && r.master == s.master && r.bound == s.bound && r.busNum == s.busNum
  {
    var ids := set id | id in s.channels && s.channels[id].owner in s.clients;
    if s.bound {
      ChannelsDelLinks(s, ids);
      if s.muxClient.Some? {
        assert s.muxClient.value in OwnClients(s);
      }
      assert forall nr :: Bus(nr) !in ChanLinks(s.channels, ids);
    } else {
      assert s.channels == map[];
      NoClientNoMux(s);
    }
  }

  lemma MasterDelKeeps(s: State)
    requires Inv(s)
    ensures Inv(MasterDel(s))
  {
    if s.master.Some? {
      ClientsDelKeeps(s);
      var t := ClientsDel(s);
      var r := MasterDel(s);
      assert r == BusDelMaster(t, s.master.value).(master := None);
      assert forall k :: ChannelLives(t, k) <==> ChannelLives(r, k);
    }
  }

  lemma MasterAddKeeps(s: State, nr: nat, createOk: bool)
    requires Inv(s)
    ensures Inv(MasterAdd(s, nr, createOk))
  {
    var r := MasterAdd(s, nr, createOk);
    assert s.channels == r.channels;
    assert forall k :: ChannelLives(s, k) <==> ChannelLives(r, k);
    if s.hasPdev && s.master.None? {
      NoClientNoMux(s);
    }
  }

  lemma ClientAddKeeps(s: State)
    requires Inv(s)
    ensures Inv(ClientAdd(s))
  {
    if s.master.Some? {
      var r := ClientAdd(s);
      assert OwnClients(r) == OwnClients(s);
      assert forall k :: ChannelLives(s, k) <==> ChannelLives(r, k);
    }
  }

  /** Once removed, nothing of the controller is left. */
  predicate Gone(s: State) {
    && !s.bound && !s.hasPdev && s.busNum == -1 && s.muxClient.None? && s.links == {}
    && s.master.None? && s.clients == {} && s.channels == map[]
  }

  lemma RemoveLeavesNothing(s: State)
    requires Inv(s)
    ensures Gone(Remove(s)) && Inv(Remove(s))
  {
    if s.bound {
      RemoveUnbinds(s);
    } else {
      NotBoundIsGone(s);
    }
  }

  lemma NotBoundIsGone(s: State)
    requires Inv(s) && !s.bound
    ensures Gone(s)
  {
    NoClientNoMux(s);
    assert s.channels == map[];
    forall l ensures l !in s.links {
      match l
      case Bus(nr) =>
      case Chan(k) =>
        if Chan(k) in s.links {
          var id := LinkNames(s, k);
        }
    }
  }

  /** Only channel links of live channels are left to drop. */
  predicate Dropped(s: State) {
    && s.bound && s.hasPdev && s.busNum == -1 && Fresh(s)
    && (s.clients != {} ==> s.master.Some?)
    && (forall id :: id in s.channels ==> s.channels[id].owner in s.clients)
    && (s.muxClient.Some? ==> s.muxClient.value in s.clients)
    && (forall l :: l in s.links ==> l.Chan? && ChannelLives(s, l.k))
  }

  lemma DropLinksDrops(s: State)
    requires Inv(s) && s.bound
    ensures Dropped(DropLinks(s))
  {
    var r := DropLinks(s);
    assert forall k :: ChannelLives(s, k) <==> ChannelLives(r, k);
    if s.muxClient.Some? {
      assert s.muxClient.value in OwnClients(s);
    }
  }

  lemma MuxClientDrops(s: State)
    requires Dropped(s) && s.muxClient.Some?
    ensures Dropped(ClientDel(s, s.muxClient.value).(muxClient := None))
  {
    var c := s.muxClient.value;
    var t := BusDelClient(s, c).(clients := s.clients - {c});
    assert forall k :: ChannelLives(s, k) <==> ChannelLives(t, k);
    ChannelsDelLinks(t, Below(s, c));
    var r := ClientDel(s, c).(muxClient := None);
    assert forall k :: ChannelLives(ClientDel(s, c), k) <==> ChannelLives(r, k);
  }

  lemma RestDrops(s: State)
    requires Dropped(s) && s.muxClient.None?
    ensures Gone(MasterDel(s).(hasPdev := false, bound := false))
  {
    if s.master.Some? {
      var ids := set id | id in s.channels && s.channels[id].owner in s.clients;
      assert ids == s.channels.Keys;
      ChannelsDelLinks(s, ids);
      EmptyLinks(ClientsDel(s));
    } else {
      assert s.channels == map[];
      EmptyLinks(s);
    }
  }

  lemma EmptyLinks(s: State)
    requires s.channels == map[]
    requires forall k :: Chan(k) in s.links ==> ChannelLives(s, k)
    ensures (forall l :: l in s.links ==> l.Chan?) ==> s.links == {}
  {
    forall k ensures Chan(k) !in s.links {
      if Chan(k) in s.links {
        var id := LinkNames(s, k);
      }
    }
  }

  lemma RemoveUnbinds(s: State)
    requires Inv(s) && s.bound
    ensures Gone(Remove(s)) && Inv(Remove(s))
  {
    DropLinksDrops(s);
    var t := DropLinks(s);
    if t.muxClient.Some? {
      MuxClientDrops(t);
      RestDrops(ClientDel(t, t.muxClient.value).(muxClient := None));
    } else {
      RestDrops(t);
    }
    var r := Remove(s);
    assert OwnClients(r) == {};
  }

  lemma StepKeepsInv(s: State, e: Event)
    requires Inv(s)
    ensures Inv(Step(s, e))
  {
    match e
    case MasterAdded(nr, createOk) => MasterAddKeeps(s, nr, createOk);
    case MasterDeleted => MasterDelKeeps(s);
    case ClientAdded => ClientAddKeeps(s);
    case ClientDeleted(c) => ClientDelKeeps(s, c);
    case ChannelAdded(owner, k) => ChannelAddKeeps(s, owner, k);
    case ChannelDeleted(id) => ChannelDelKeeps(s, id);
    case Removed => RemoveLeavesNothing(s);
  }

  lemma {:induction false} RunKeepsInv(s: State, events: seq<Event>)
    requires Inv(s)
    ensures Inv(Run(s, events))
    decreases |events|
  {
    hide Inv, Step;
    if events != [] {
      StepKeepsInv(s, events[0]);
      RunKeepsInv(Step(s, events[0]), events[1..]);
    }
  }

  // ----- Main results -----

  lemma InitIsOk(numMux: nat)
    ensures Inv(Init(numMux)) && Exact(Init(numMux))
  {
    assert OwnClients(Init(numMux)) == {};
  }

  /** After any run of adapter, client and channel events and removes: mux_client is null
      or a client that is still registered, below a live master adapter; no other
      client the notifier created is left; and master_bus_num names the live master
      adapter, and its link, or is -1 when there is none. */
  lemma MuxClientIsNeverDead(numMux: nat, events: seq<Event>)
    ensures var s := Run(Init(numMux), events);
            && (s.muxClient.Some? ==> s.muxClient.value in s.clients && s.master.Some?)
            && (forall c :: c in s.created && c in s.clients ==> s.muxClient == Some(c))
            && s.busNum == (if s.master.Some? then s.master.value else -1)
            && (forall nr :: Bus(nr) in s.links <==> s.busNum == nr)
  {
    InitIsOk(numMux);
    RunKeepsInv(Init(numMux), events);
    var s := Run(Init(numMux), events);
    if s.muxClient.Some? {
      assert s.muxClient.value in OwnClients(s);
    }
    forall c | c in s.created && c in s.clients ensures s.muxClient == Some(c) {
      assert c in OwnClients(s);
    }
  }

  /** A master adapter that comes back gets its mux client again, unless creating the
      client fails, and the old client is gone. */
  lemma ReAddRecreates(s: State, nr: nat, createOk: bool)
    requires Inv(s) && s.bound
    ensures var r := MasterAdd(MasterDel(s), nr, createOk);
            && r.master == Some(nr) && r.busNum == nr
            && (r.muxClient.Some? <==> s.numMux > 0 && createOk)
            && (r.muxClient.Some? ==> r.muxClient.value !in s.clients
                                      && r.clients == {r.muxClient.value})
            && (forall n :: Bus(n) in r.links <==> n == nr)
  {
    MasterDelKeeps(s);
    if s.master.Some? {
      ClientsDelKeeps(s);
    }
    var t := MasterDel(s);
    assert t.clients == {};
    NoClientNoMux(t);
    MasterAddKeeps(t, nr, createOk);
  }

  /** After a remove nothing is left, and no later event brings anything back. */
  lemma RemoveIsFinal(s: State, events: seq<Event>)
    requires Inv(s)
    ensures Gone(Run(Remove(s), events))
  {
    RemoveLeavesNothing(s);
    GoneStays(Remove(s), events);
  }

  lemma {:induction false} GoneStays(s: State, events: seq<Event>)
    requires Gone(s)
    ensures Run(s, events) == s
    decreases |events|
  {
    if events != [] {
      assert Step(s, events[0]) == s;
      GoneStays(s, events[1..]);
    }
  }

  // ----- Channel links -----

  /** Every live channel adapter with a number has its link, and no link is stale. */
  ghost predicate LinksExact(s: State) {
    forall k :: Chan(k) in s.links <==> s.bound && ChannelLives(s, k)
  }

  /** No two live channels of the controller have the same number. */
  predicate Distinct(s: State) {
    forall a, b :: a in s.channels && b in s.channels && a != b && s.channels[a].k >= 0 ==>
      s.channels[a].k != s.channels[b].k
  }

  /** A channel adapter that comes and goes leaves the links exact if and only if no
      other live channel below the controller has its number. */
  lemma LinksSurviveIff(s: State, owner: nat, k: nat)
    requires Inv(s) && s.bound && LinksExact(s) && owner in s.clients
    ensures LinksExact(ChannelDel(ChannelAdd(s, owner, k), s.next)) <==> !ChannelLives(s, k)
  {
    var t := ChannelAdd(s, owner, k);
    var r := ChannelDel(t, s.next);
    assert r.channels == s.channels;
    assert forall j :: ChannelLives(r, j) <==> ChannelLives(s, j);
    assert Chan(k) !in r.links;
    assert forall j :: j != k ==> (Chan(j) in r.links <==> Chan(j) in s.links);
  }

  /** Every channel added by an event of the run has a number of its own. */
  predicate TidyRun(s: State, events: seq<Event>)
    decreases |events|
  {
    events != [] ==>
      && (events[0].ChannelAdded? && events[0].k >= 0 ==> !ChannelLives(s, events[0].k))
      && TidyRun(Step(s, events[0]), events[1..])
  }

  ghost predicate Exact(s: State) {
    Inv(s) && LinksExact(s) && Distinct(s)
  }

  /** Deleting channels whose numbers no other channel has leaves the links exact. */
  lemma ChannelsDelExact(s: State, ids: set<nat>)
    requires s.bound && LinksExact(s) && Distinct(s) && ids <= s.channels.Keys
    ensures LinksExact(ChannelsDel(s, ids)) && Distinct(ChannelsDel(s, ids))
  {
    var r := ChannelsDel(s, ids);
    ChannelsDelLinks(s, ids);
    forall k | ChannelLives(r, k) ensures Chan(k) in r.links {
      var id := LinkNames(r, k);
      assert s.channels[id].k == k;
      assert ChannelLives(s, k);
      assert Chan(k) !in ChanLinks(s.channels, ids);
    }
  }

  lemma StepKeepsExact(s: State, e: Event)
    requires Exact(s)
    requires e.ChannelAdded? && e.k >= 0 ==> !ChannelLives(s, e.k)
    ensures Exact(Step(s, e))
  {
    StepKeepsInv(s, e);
    var r := Step(s, e);
    match e
    case MasterAdded(nr, createOk) => SameChannels(s, r);
    case ClientAdded => SameChannels(s, r);
    case Removed => RemoveLeavesNothing(s);
    case MasterDeleted =>
      if s.master.Some? {
        ClientsDelKeeps(s);
        assert r.channels == map[];
        forall k ensures Chan(k) !in r.links {
          if Chan(k) in r.links {
            var id := LinkNames(r, k);
          }
        }
      }
    case ClientDeleted(c) =>
      if c in s.clients {
        var t := BusDelClient(s, c).(clients := s.clients - {c});
        SameChannels(s, t);
        ChannelsDelExact(t, Below(s, c));
      }
    case ChannelDeleted(id) =>
      if id in s.channels {
        ChannelsDelExact(s, {id});
        SameChannelDel(s, id);
      }
    case ChannelAdded(owner, k) =>
      if owner in s.clients {
        ChannelAddExact(s, owner, k);
      }
  }

  lemma SameChannels(s: State, r: State)
    requires Exact(s) && r.channels == s.channels && r.bound == s.bound
    requires forall k :: Chan(k) in r.links <==> Chan(k) in s.links
    ensures LinksExact(r) && Distinct(r)
  {
    assert forall k :: ChannelLives(s, k) <==> ChannelLives(r, k);
  }

  /** One deletion is a deletion of a set of one. */
  lemma SameChannelDel(s: State, id: nat)
    requires id in s.channels
    ensures ChannelDel(s, id) == ChannelsDel(s, {id})
  {
    var k := s.channels[id].k;
    assert ChanLinks(s.channels, {id}) == if k >= 0 then {Chan(k)} else {};
    assert s.links - {} == s.links;
  }

  lemma ChannelAddExact(s: State, owner: nat, k: int)
    requires Exact(s) && owner in s.clients && (k >= 0 ==> !ChannelLives(s, k))
    ensures var r := ChannelAdd(s, owner, k); LinksExact(r) && Distinct(r)
  {
    var r := ChannelAdd(s, owner, k);
    assert s.next in r.channels && r.channels[s.next].k == k;
    forall j ensures ChannelLives(r, j) <==> j == k || ChannelLives(s, j) {
      if ChannelLives(s, j) {
        var id := LinkNames(s, j);
        assert id in r.channels;
      }
    }
    assert forall id :: id in s.channels ==> s.channels[id].k != k || k < 0;
  }

  /** When channel numbers are not shared, the channel links are exact after any run. */
  lemma {:induction false} LinksStayExact(s: State, events: seq<Event>)
    requires Exact(s) && TidyRun(s, events)
    ensures Exact(Run(s, events))
    decreases |events|
  {
    hide Exact, Step;
    if events != [] {
      StepKeepsExact(s, events[0]);
      LinksStayExact(Step(s, events[0]), events[1..]);
    }
  }

  lemma ChannelLinksAreExact(numMux: nat, events: seq<Event>)
    requires TidyRun(Init(numMux), events)
    ensures LinksExact(Run(Init(numMux), events))
  {
    InitIsOk(numMux);
    LinksStayExact(Init(numMux), events);
  }

  // ----- One at a time, in any order -----

  lemma LinksSplit(channels: map<nat, Channel>, ids: set<nat>, id: nat)
    requires id in ids && id in channels
    ensures ChanLinks(channels, ids) == ChanLinks(channels, {id}) + ChanLinks(channels - {id}, ids - {id})
  {
    var rest := channels - {id};
    forall x | x in ChanLinks(channels, ids)
      ensures x in ChanLinks(channels, {id}) + ChanLinks(rest, ids - {id})
    {
      var j :| j in ids && j in channels && channels[j].k >= 0 && x == Chan(channels[j].k);
      if j != id {
        assert j in rest && rest[j] == channels[j];
      }
    }
    forall x | x in ChanLinks(rest, ids - {id})
      ensures x in ChanLinks(channels, ids)
    {
      var j :| j in ids - {id} && j in rest && rest[j].k >= 0 && x == Chan(rest[j].k);
      assert j in channels && rest[j] == channels[j];
    }
  }

  lemma DelChannelFirst(s: State, ids: set<nat>, id: nat)
    requires id in ids && id in s.channels
    ensures ChannelsDel(ChannelDel(s, id), ids - {id}) == ChannelsDel(s, ids)
  {
    var t := ChannelDel(s, id);
    SameChannelDel(s, id);
    assert t.channels - (ids - {id}) == s.channels - ids;
    LinksSplit(s.channels, ids, id);
    if s.bound {
      assert t.links - ChanLinks(t.channels, ids - {id}) == s.links - ChanLinks(s.channels, ids);
    }
  }

  lemma DelNoChannel(s: State, ids: set<nat>)
    requires ids !! s.channels.Keys
    ensures ChannelsDel(s, ids) == s
  {
    assert ChanLinks(s.channels, ids) == {};
    assert s.channels - ids == s.channels;
    assert s.links - {} == s.links;
  }

  lemma DelClientFirst(s: State, c: nat)
    requires c in s.clients
    ensures ClientsDel(ClientDel(s, c)) == ClientsDel(s)
  {
    var t := ClientDel(s, c);
    var ids := set id | id in s.channels && s.channels[id].owner in s.clients;
    var rest := set id | id in t.channels && t.channels[id].owner in t.clients;
    assert ids == Below(s, c) + rest;
    assert t.channels - rest == s.channels - ids;
    assert ChanLinks(s.channels, ids)
        == ChanLinks(s.channels, Below(s, c)) + ChanLinks(t.channels, rest);
    if s.bound {
      assert t.links - ChanLinks(t.channels, rest) == s.links - ChanLinks(s.channels, ids);
    }
  }

  lemma DelNoClient(s: State)
    requires s.clients == {}
    ensures ClientsDel(s) == s
  {
    var ids := set id | id in s.channels && s.channels[id].owner in s.clients;
    assert ids == {};
    DelNoChannel(s, ids);
  }

  /** No link of the adapter nr or of a channel number below n is left. */
  predicate NoOwnLinks(links: set<Link>, n: nat, nr: int) {
    forall l :: l in links ==> if l.Bus? then l.nr != nr else l.k >= n
  }

  /** However stale the links are, a remove takes those of the controller's numbers. */
  lemma RemoveDropsLinks(s: State)
    requires s.bound
    ensures NoOwnLinks(Remove(s).links, s.numMux, s.busNum)
  {
    var t := DropLinks(s);
    var u := if t.muxClient.Some? then ClientDel(t, t.muxClient.value).(muxClient := None) else t;
    assert u.links <= t.links;
    assert MasterDel(u).links <= u.links;
  }

  // ----- The controller in its own form -----

  class Controller {
    var bound: bool
    var hasPdev: bool
    var masterBusNum: int
    var muxClient: Option<nat>
    const numMuxChannels: nat
    var links: set<Link>
    var master: Option<nat>
    var clients: set<nat>
    var channels: map<nat, Channel>
    var next: nat
    ghost var created: set<nat>

    ghost function Abs(): State
      reads this
    {
      State(bound, hasPdev, masterBusNum, muxClient, numMuxChannels, links, master, clients,
            channels, next, created)
    }

    constructor (numMux: nat)
      ensures Abs() == Init(numMux)
    {
      bound, hasPdev, masterBusNum, muxClient, numMuxChannels := true, true, -1, None, numMux;
      links, master, clients, channels, next, created := {}, None, {}, map[], 0, {};
    }

    /** nh_fpga_i2c_bus_notify, a device was added: the master adapter */
    method NotifyMasterAdded(nr: nat, createOk: bool)
      modifies this
      ensures Abs() == BusAddMaster(old(Abs()), nr, createOk)
      ensures links == if bound then old(links) + {Bus(nr)} else old(links)
      ensures masterBusNum == if bound then nr else old(masterBusNum)
      ensures if bound && numMuxChannels > 0 && old(muxClient).None? && createOk
              then muxClient.Some? && clients == old(clients) + {muxClient.value}
              else muxClient == old(muxClient) && clients == old(clients)
    {
      if !bound {
        return;
      }
      links := links + {Bus(nr)};
      masterBusNum := nr;
      if numMuxChannels > 0 && muxClient.None? && createOk {
        muxClient := Some(next);
        clients := clients + {next};
        created := created + {next};
        next := next + 1;
      }
    }

    /** nh_fpga_i2c_bus_del: a client */
    method NotifyClientDeleted(c: nat)
      modifies this`muxClient
      ensures Abs() == BusDelClient(old(Abs()), c)
      ensures bound ==> muxClient != Some(c)
      ensures old(muxClient) != Some(c) ==> muxClient == old(muxClient)
    {
      if bound && muxClient == Some(c) {
        muxClient := None;
      }
    }

    /** nh_fpga_i2c_bus_del: the master adapter */
    method NotifyMasterDeleted(nr: nat)
      modifies this`links, this`masterBusNum
      ensures Abs() == BusDelMaster(old(Abs()), nr)
      ensures bound ==> masterBusNum != nr
      ensures bound && old(masterBusNum) == nr ==> Bus(nr) !in links
      ensures old(masterBusNum) != nr ==> masterBusNum == old(masterBusNum) && links == old(links)
      ensures forall l: Link :: l != Bus(nr) ==> (l in links <==> l in old(links))
    {
      if bound && masterBusNum == nr {
        links := links - {Bus(nr)};
        masterBusNum := -1;
      }
    }

    /** A channel adapter goes, with its notification. */
    method DeleteChannel(id: nat)
      modifies this`links, this`channels
      ensures Abs() == ChannelDel(old(Abs()), id)
      ensures id !in channels && channels == old(channels) - {id}
      ensures bound && id in old(channels) && old(channels)[id].k >= 0 ==>
                Chan(old(channels)[id].k) !in links
      ensures forall l: Link :: !(id in old(channels) && l.Chan? && l.k == old(channels)[id].k) ==>
                (l in links <==> l in old(links))
    {
      if id in channels {
        if bound && channels[id].k >= 0 {
          links := links - {Chan(channels[id].k)};
        }
        channels := channels - {id};
      }
    }

    method DeleteChannels(all: set<nat>)
      requires all <= channels.Keys
      modifies this`links, this`channels
      ensures Abs() == ChannelsDel(old(Abs()), all)
    {
      var ids := all;
      while ids != {}
        invariant ids <= channels.Keys
        invariant ChannelsDel(Abs(), ids) == ChannelsDel(old(Abs()), all)
        decreases |ids|
      {
        var id :| id in ids;
        DelChannelFirst(Abs(), ids, id);
        DeleteChannel(id);
        ids := ids - {id};
      }
      DelNoChannel(Abs(), {});
    }

    /** i2c_unregister_device */
    method UnregisterClient(c: nat)
      modifies this
      ensures Abs() == ClientDel(old(Abs()), c)
      ensures clients == old(clients) - {c} && master == old(master)
      ensures forall id :: id in channels <==>
                id in old(channels) && !(c in old(clients) && old(channels)[id].owner == c)
    {
      if c !in clients {
        return;
      }
      var below := set id | id in channels && channels[id].owner == c;
      NotifyClientDeleted(c);
      clients := clients - {c};
      DeleteChannels(below);
    }

    /** i2c_del_adapter, called when the xiic driver unbinds */
    method DeleteMaster()
      modifies this
      ensures Abs() == MasterDel(old(Abs()))
    {
      if master.None? {
        return;
      }
      while clients != {}
        invariant ClientsDel(Abs()) == ClientsDel(old(Abs()))
        invariant master == old(master)
        decreases |clients|
      {
        var c :| c in clients;
        DelClientFirst(Abs(), c);
        UnregisterClient(c);
      }
      DelNoClient(Abs());
      NotifyMasterDeleted(master.value);
      master := None;
    }

    /** nh_fpga_i2c_remove */
    method RemoveController()
      modifies this
      ensures Abs() == Remove(old(Abs()))
      ensures old(Inv(Abs())) ==> Gone(Abs()) && Inv(Abs())
      ensures old(bound) ==> !bound && NoOwnLinks(links, numMuxChannels, old(masterBusNum))
    {
      hide Inv, Gone;
      if bound {
        RemoveDropsLinks(Abs());
      }
      if old(Inv(Abs())) {
        RemoveLeavesNothing(Abs());
      }
      if !bound {
        return;
      }
      ghost var s := Abs();
      DropAllLinks();
      if muxClient.Some? {
        UnregisterClient(muxClient.value);
        muxClient := None;
      }
      if hasPdev {
        DeleteMaster();
        hasPdev := false;
      }
      bound := false;
    }

    method DropAllLinks()
      modifies this`links, this`masterBusNum
      ensures Abs() == DropLinks(old(Abs()))
    {
      for i := 0 to numMuxChannels
        invariant masterBusNum == old(masterBusNum)
        invariant links == set l | l in old(links) && !(l.Chan? && l.k < i)
      {
        links := links - {Chan(i)};
      }
      if masterBusNum >= 0 {
        links := links - {Bus(masterBusNum)};
        masterBusNum := -1;
      }
    }
  }
}
