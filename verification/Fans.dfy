/** The bi-color LEDs of the fan trays: good and fail bits of one control register,
    written by the sysfs attribute and, later, by the LED class devices. A register
    and a bit mask are sets of bits. */
module Fans {

  /** ctrl_good_led_bit and ctrl_fail_led_bit of struct fan */
  datatype Fan = Fan(good: set<nat>, fail: set<nat>)

  const GOOD: int := 1
  const FAIL: int := 0

  predicate FansOk(fans: seq<Fan>) {
    && (forall i :: 0 <= i < |fans| ==> fans[i].good !! fans[i].fail)
    && (forall i, j :: 0 <= i < j < |fans| ==> Mask(fans[i]) !! Mask(fans[j]))
  }

  function Mask(f: Fan): set<nat> {
    f.good + f.fail
  }

  /** nh_fpga_fan_led_set: turning one color on turns its sibling off. */
  function LedSet(reg: set<nat>, f: Fan, isGood: bool, on: bool): set<nat> {
    var bits := if isGood then f.good else f.fail;
    if on then reg + bits - (Mask(f) - bits) else reg - bits
  }

  /** The register write of fan_led_simple_store; any value but 0 and 1 means off. */
  function Store(reg: set<nat>, f: Fan, value: int): set<nat> {
    var r := if value == GOOD then reg + f.good else reg - f.good;
    if value == FAIL then r + f.fail else r - f.fail
  }

  /** What the store asks of the class device of one color. */
  predicate Wants(value: int, isGood: bool) {
    value == if isGood then GOOD else FAIL
  }

  /** The control register with the bits of the first n trays cleared. */
  function Cleared(reg: set<nat>, fans: seq<Fan>, n: nat): set<nat>
    requires n <= |fans|
  {
    if n == 0 then reg else Cleared(reg, fans, n - 1) - Mask(fans[n - 1])
  }

  /** Does one of the first n trays use the bit? */
  predicate InMask(fans: seq<Fan>, n: nat, x: nat) {
    n <= |fans| && exists i :: 0 <= i < n && (x in fans[i].good || x in fans[i].fail)
  }

  // ----- The driver in its own form -----

  class FanLeds {
    const fans: seq<Fan>
    var reg: set<nat>

    /** nh_fpga_fan_init_leds */
    method InitLeds()
      modifies this`reg
      ensures reg == Cleared(old(reg), fans, |fans|)
      ensures forall i :: 0 <= i < |fans| ==> reg !! Mask(fans[i])
      ensures forall x :: !InMask(fans, |fans|, x) ==> (x in reg <==> x in old(reg))
    {
      var r := reg;
      for i := 0 to |fans|
        invariant r == Cleared(reg, fans, i)
        invariant forall j :: 0 <= j < i ==> r !! Mask(fans[j])
        invariant forall x :: !InMask(fans, i, x) ==> (x in r <==> x in reg)
      {
        ghost var before := r;
        r := r - fans[i].good;
        r := r - fans[i].fail;
        assert r == before - Mask(fans[i]);
      }
      reg := r;
    }

    /** nh_fpga_fan_led_set */
    method ClassSet(tray: nat, isGood: bool, brightness: nat)
      requires tray < |fans|
      modifies this`reg
      ensures reg == LedSet(old(reg), fans[tray], isGood, brightness != 0)
      ensures fans[tray].good !! fans[tray].fail && brightness != 0 ==>
                if isGood then fans[tray].good <= reg && fans[tray].fail !! reg
                else fans[tray].fail <= reg && fans[tray].good !! reg
      ensures brightness == 0 ==> (if isGood then fans[tray].good else fans[tray].fail) !! reg
      ensures forall x :: x !in (if isGood then fans[tray].good else fans[tray].fail)
                          && (brightness == 0 || x !in fans[tray].good + fans[tray].fail) ==>
                (x in reg <==> x in old(reg))
    {
      var fan := fans[tray];
      var bitPos := if isGood then fan.good else fan.fail;
      var sibling := (fan.good + fan.fail) - bitPos;
      var r := reg;
      if brightness != 0 {
        r := r + bitPos;
        r := r - sibling;
      } else {
        r := r - bitPos;
      }
      reg := r;
    }

    /** fan_led_simple_store, up to the follow-ups. fanNum counts from 1. */
    method SimpleStore(fanNum: int, value: int, present: bool) returns (ok: bool)
      modifies this`reg
      ensures ok <==> 1 <= fanNum <= |fans| && present
      ensures reg == if ok then Store(old(reg), fans[fanNum - 1], value) else old(reg)
      ensures ok && fans[fanNum - 1].good !! fans[fanNum - 1].fail ==>
                && (if value == 1 then fans[fanNum - 1].good <= reg else fans[fanNum - 1].good !! reg)
                && (if value == 0 then fans[fanNum - 1].fail <= reg else fans[fanNum - 1].fail !! reg)
      ensures ok ==> forall x :: x !in fans[fanNum - 1].good + fans[fanNum - 1].fail ==>
                       (x in reg <==> x in old(reg))
    {
      if fanNum < 1 || fanNum > |fans| || !present {
        return false;
      }
      var good, fail := false, false;
      if value == GOOD {
        good := true;
      } else if value == FAIL {
        fail := true;
      }
      var fan := fans[fanNum - 1];
      var r := reg;
      if good {
        r := r + fan.good;
      } else {
        r := r - fan.good;
      }
      if fail {
        r := r + fan.fail;
      } else {
        r := r - fan.fail;
      }
      reg := r;
      return true;
    }
  }

  // ----- One tray -----

  /** Never both colors at once. */
  predicate Exclusive(reg: set<nat>, f: Fan) {
    reg !! f.good || reg !! f.fail
  }

  /** The tray shows what the value asks for. */
  predicate Shows(reg: set<nat>, f: Fan, value: int) {
    && (if value == 1 then f.good <= reg else reg !! f.good)
    && (if value == 0 then f.fail <= reg else reg !! f.fail)
  }

  lemma StoreShows(reg: set<nat>, f: Fan, value: int)
    requires f.good !! f.fail
    ensures Shows(Store(reg, f, value), f, value) && Exclusive(Store(reg, f, value), f)
    ensures Store(reg, f, value) - Mask(f) == reg - Mask(f)
  {
  }

  lemma LedSetExclusive(reg: set<nat>, f: Fan, isGood: bool, on: bool)
    requires f.good !! f.fail && Exclusive(reg, f)
    ensures Exclusive(LedSet(reg, f, isGood, on), f)
    ensures LedSet(reg, f, isGood, on) - Mask(f) == reg - Mask(f)
  {
  }

  /** Once the tray shows a value, what that value asks of either class device is
      already so. */
  lemma FollowUpIsNoOp(reg: set<nat>, f: Fan, value: int, isGood: bool)
    requires f.good !! f.fail && Shows(reg, f, value)
    ensures LedSet(reg, f, isGood, Wants(value, isGood)) == reg
  {
  }

  /** The two follow-ups of an uninterrupted store, in either order, leave the
      register as its direct write did. */
  lemma FollowUpsEitherOrder(reg: set<nat>, f: Fan, value: int, goodFirst: bool)
    requires f.good !! f.fail
    ensures var r := Store(reg, f, value);
            LedSet(LedSet(r, f, goodFirst, Wants(value, goodFirst)),
                   f, !goodFirst, Wants(value, !goodFirst)) == r
  {
    StoreShows(reg, f, value);
    FollowUpIsNoOp(Store(reg, f, value), f, value, goodFirst);
    FollowUpIsNoOp(Store(reg, f, value), f, value, !goodFirst);
  }

  /** An update is carried out once: a later write is not undone by it. */
  lemma WorkIsDoneOnce(fans: seq<Fan>, s: State, i: nat, isGood: bool, value: int)
    requires i < |fans|
    ensures var later := Step(fans, Step(fans, s, Work(i, isGood)), Write(i, value));
            later.reg == Store(Step(fans, s, Work(i, isGood)).reg, fans[i], value)
            && Step(fans, later, Work(i, isGood)) == later
  {
    hide Store, LedSet;
  }

  /** Two values that light the same color. */
  predicate SameColor(a: int, b: int) {
    a == b || (a != 1 && a != 0 && b != 1 && b != 0)
  }

  /** Follow-ups of an overtaken store are stale: when they come after a later store
      and its follow-ups, the tray ends with the color of the earlier store, which is
      the right one if and only if both stores asked for the same. */
  lemma StaleFollowUps(reg: set<nat>, f: Fan, a: int, b: int)
    requires f.good !! f.fail && f.good != {} && f.fail != {}
    ensures var later := Store(Store(reg, f, a), f, b);
            var end := LedSet(LedSet(later, f, true, Wants(a, true)), f, false, Wants(a, false));
            && end == Store(reg, f, a)
            && (end == later <==> SameColor(a, b))
  {
    StoreShows(reg, f, a);
    StoreShows(Store(reg, f, a), f, b);
  }

  // ----- All trays, any interleaving -----

  /** The register, and the class device updates that wait in the work queue; a newer
      update of a device replaces the one that waits. */
  datatype State = State(reg: set<nat>, pending: map<(nat, bool), bool>)

  /** Write: the locked write of a store. Queue: led_set_brightness, by a store or by a
      user of the class device. Work: the work queue carries an update out. */
  datatype Event =
    | Write(tray: nat, value: int)
    | Queue(tray: nat, isGood: bool, on: bool)
    | Work(tray: nat, isGood: bool)

  function Step(fans: seq<Fan>, s: State, e: Event): State {
    if e.tray >= |fans| then s
    else match e
      case Write(i, value) => s.(reg := Store(s.reg, fans[i], value))
      case Queue(i, isGood, on) => s.(pending := s.pending[(i, isGood) := on])
      case Work(i, isGood) =>
        if (i, isGood) in s.pending then
          State(LedSet(s.reg, fans[i], isGood, s.pending[(i, isGood)]), s.pending - {(i, isGood)})
        else s
  }

  function Run(fans: seq<Fan>, s: State, events: seq<Event>): State
    decreases |events|
  {
    if events == [] then s else Run(fans, Step(fans, s, events[0]), events[1..])
  }

  predicate AllExclusive(fans: seq<Fan>, reg: set<nat>) {
    forall i :: 0 <= i < |fans| ==> Exclusive(reg, fans[i])
  }

  lemma StepKeepsExclusive(fans: seq<Fan>, s: State, e: Event)
    requires FansOk(fans) && AllExclusive(fans, s.reg)
    ensures AllExclusive(fans, Step(fans, s, e).reg)
  {
    var r := Step(fans, s, e);
    forall i | 0 <= i < |fans| ensures Exclusive(r.reg, fans[i]) {
      assert Exclusive(s.reg, fans[i]);
      if e.tray != i {
        OtherTrays(fans, s, e, i);
        SameBitsSameLed(s.reg, r.reg, fans[i]);
      } else {
        match e
        case Write(_, value) => StoreShows(s.reg, fans[i], value);
        case Queue(_, _, _) =>
        case Work(_, isGood) =>
          if (i, isGood) in s.pending {
            LedSetExclusive(s.reg, fans[i], isGood, s.pending[(i, isGood)]);
          }
      }
    }
  }

  /** A step on one tray leaves the bits of all others alone. */
  lemma OtherTrays(fans: seq<Fan>, s: State, e: Event, i: nat)
    requires FansOk(fans) && i < |fans| && e.tray != i
    ensures Step(fans, s, e).reg * Mask(fans[i]) == s.reg * Mask(fans[i])
  {
    if e.tray < |fans| {
      var j := e.tray;
      assert Mask(fans[if i < j then i else j]) !! Mask(fans[if i < j then j else i]);
    }
  }

  lemma SameBitsSameLed(a: set<nat>, b: set<nat>, f: Fan)
    requires a * Mask(f) == b * Mask(f)
    ensures Exclusive(a, f) <==> Exclusive(b, f)
    ensures forall v :: Shows(a, f, v) <==> Shows(b, f, v)
  {
    assert forall x :: x in Mask(f) ==> (x in a * Mask(f) <==> x in a) && (x in b * Mask(f) <==> x in b);
  }

  lemma {:induction false} RunKeepsExclusive(fans: seq<Fan>, s: State, events: seq<Event>)
    requires FansOk(fans) && AllExclusive(fans, s.reg)
    ensures AllExclusive(fans, Run(fans, s, events).reg)
    decreases |events|
  {
    if events != [] {
      StepKeepsExclusive(fans, s, events[0]);
      RunKeepsExclusive(fans, Step(fans, s, events[0]), events[1..]);
    }
  }

  lemma {:induction false} ClearedIsClear(reg: set<nat>, fans: seq<Fan>, n: nat)
    requires n <= |fans|
    ensures forall i :: 0 <= i < n ==> Cleared(reg, fans, n) !! Mask(fans[i])
  {
    if n > 0 {
      ClearedIsClear(reg, fans, n - 1);
    }
  }

  /** From probe on, whatever the order of stores, class device updates and work: no
      tray ever shows good and fail at once. */
  lemma NeverBoth(fans: seq<Fan>, powerUp: set<nat>, pending: map<(nat, bool), bool>,
                  events: seq<Event>)
    requires FansOk(fans)
    ensures AllExclusive(fans, Run(fans, State(Cleared(powerUp, fans, |fans|), pending), events).reg)
  {
    ClearedIsClear(powerUp, fans, |fans|);
    RunKeepsExclusive(fans, State(Cleared(powerUp, fans, |fans|), pending), events);
  }

  /** Bits that no tray uses never change. */
  lemma {:induction false} OtherBitsStay(fans: seq<Fan>, s: State, events: seq<Event>, x: nat)
    requires !InMask(fans, |fans|, x)
    ensures x in Run(fans, s, events).reg <==> x in s.reg
    decreases |events|
  {
    if events != [] {
      var r := Step(fans, s, events[0]);
      assert x in r.reg <==> x in s.reg;
      OtherBitsStay(fans, r, events[1..], x);
    }
  }

  // ----- When the last store's color stays -----

  /** Every waiting update of tray i asks for what the value asks for. */
  ghost predicate PendingAgrees(s: State, i: nat, value: int) {
    forall isGood :: (i, isGood) in s.pending ==> (s.pending[(i, isGood)] <==> Wants(value, isGood))
  }

  /** The events that concern tray i all ask for the value's color. */
  predicate Agrees(e: Event, i: nat, value: int) {
    e.tray == i ==>
      && (e.Write? ==> SameColor(e.value, value))
      && (e.Queue? ==> (e.on <==> Wants(value, e.isGood)))
  }

  lemma StepKeepsColor(fans: seq<Fan>, s: State, e: Event, i: nat, value: int)
    requires FansOk(fans) && i < |fans| && Agrees(e, i, value)
    requires Shows(s.reg, fans[i], value) && PendingAgrees(s, i, value)
    ensures var r := Step(fans, s, e);
            && r.reg * Mask(fans[i]) == s.reg * Mask(fans[i])
            && Shows(r.reg, fans[i], value) && PendingAgrees(r, i, value)
  {
    var r := Step(fans, s, e);
    if e.tray != i {
      OtherTrays(fans, s, e, i);
      SameBitsSameLed(s.reg, r.reg, fans[i]);
    } else {
      match e
      case Write(_, v) =>
        StoreShows(s.reg, fans[i], v);
        assert r.reg == s.reg;
      case Queue(_, _, _) =>
      case Work(_, isGood) =>
        if (i, isGood) in s.pending {
          FollowUpIsNoOp(s.reg, fans[i], value, isGood);
        }
    }
  }

  /** After the locked write of a store, and with no other request for that tray before
      or after, the tray keeps the color it was given, through any number of
      follow-ups in any order and anything that happens to other trays. */
  lemma StoreSettles(fans: seq<Fan>, s: State, i: nat, value: int, events: seq<Event>)
    requires FansOk(fans) && i < |fans| && PendingAgrees(s, i, value)
    requires forall k :: 0 <= k < |events| ==> Agrees(events[k], i, value)
    ensures var t := Step(fans, s, Write(i, value));
            Run(fans, t, events).reg * Mask(fans[i]) == t.reg * Mask(fans[i])
            && Shows(Run(fans, t, events).reg, fans[i], value)
  {
    StoreShows(s.reg, fans[i], value);
    ColorStays(fans, Step(fans, s, Write(i, value)), i, value, events);
  }

  lemma {:induction false} ColorStays(fans: seq<Fan>, s: State, i: nat, value: int, events: seq<Event>)
    requires FansOk(fans) && i < |fans| && PendingAgrees(s, i, value)
    requires Shows(s.reg, fans[i], value)
    requires forall k :: 0 <= k < |events| ==> Agrees(events[k], i, value)
    ensures Run(fans, s, events).reg * Mask(fans[i]) == s.reg * Mask(fans[i])
    ensures Shows(Run(fans, s, events).reg, fans[i], value)
    decreases |events|
  {
    if events != [] {
      StepKeepsColor(fans, s, events[0], i, value);
      ColorStays(fans, Step(fans, s, events[0]), i, value, events[1..]);
    }
  }

  /** Two overlapping stores of one tray, one asking for good and one for fail, can end
      with the tray dark: each color's last queued update is the one that clears it. */
  lemma OverlappingStoresGoDark(fans: seq<Fan>, i: nat, reg: set<nat>)
    requires FansOk(fans) && i < |fans|
    ensures var events := [Write(i, 1), Write(i, 0),
                           Queue(i, true, true), Queue(i, true, false),
                           Queue(i, false, true), Queue(i, false, false),
                           Work(i, true), Work(i, false)];
            Run(fans, State(reg, map[]), events).reg !! Mask(fans[i])
  {
    var s0 := State(reg, map[]);
    var s2 := Step(fans, Step(fans, s0, Write(i, GOOD)), Write(i, FAIL));
    var s4 := Step(fans, Step(fans, s2, Queue(i, true, true)), Queue(i, true, false));
    var s6 := Step(fans, Step(fans, s4, Queue(i, false, true)), Queue(i, false, false));
    var s8 := Step(fans, Step(fans, s6, Work(i, true)), Work(i, false));
    assert s6.pending[(i, true)] == false && s6.pending[(i, false)] == false;
    assert s8.reg !! Mask(fans[i]);
    RunEight(fans, s0, Write(i, GOOD), Write(i, FAIL), Queue(i, true, true), Queue(i, true, false),
             Queue(i, false, true), Queue(i, false, false), Work(i, true), Work(i, false));
  }

  lemma RunTwo(fans: seq<Fan>, s: State, a: Event, b: Event, rest: seq<Event>)
    ensures Run(fans, s, [a, b] + rest) == Run(fans, Step(fans, Step(fans, s, a), b), rest)
  {
    assert ([a, b] + rest)[1..] == [b] + rest;
    assert ([b] + rest)[1..] == rest;
  }

  lemma RunEight(fans: seq<Fan>, s: State, a: Event, b: Event, c: Event, d: Event, e: Event,
                 f: Event, g: Event, h: Event)
    ensures Run(fans, s, [a, b, c, d, e, f, g, h])
         == Step(fans, Step(fans, Step(fans, Step(fans, Step(fans, Step(fans, Step(fans,
              Step(fans, s, a), b), c), d), e), f), g), h)
  {
    hide Step;
    var s2 := Step(fans, Step(fans, s, a), b);
    var s4 := Step(fans, Step(fans, s2, c), d);
    var s6 := Step(fans, Step(fans, s4, e), f);
    assert [a, b, c, d, e, f, g, h] == [a, b] + ([c, d] + ([e, f] + ([g, h] + [])));
    RunTwo(fans, s, a, b, [c, d] + ([e, f] + ([g, h] + [])));
    RunTwo(fans, s2, c, d, [e, f] + ([g, h] + []));
    RunTwo(fans, s4, e, f, [g, h] + []);
    RunTwo(fans, s6, g, h, []);
  }
}
