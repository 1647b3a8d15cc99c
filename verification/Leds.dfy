/** The LED registers that the port LED driver and the LED core driver share under
    one lock. A register is the set of its bits that are 1. */
module Leds {
  import opened Wrappers

  datatype Color = Blue | Amber

  /** struct port_led_range */
  datatype Range = Range(startPort: nat, endPort: nat, offset: nat, bitsPerPort: nat,
                         colorBitOffset: nat)

  /** The color table, and the addresses of the register windows of the two drivers. */
  datatype Board = Board(blue: seq<Range>, amber: seq<Range>, portBase: nat, control: nat)

  /** struct nh_led_core_info */
  datatype CoreInfo = CoreInfo(colorOffset: nat, width: nat, blinkBit: nat)

  /** A bit of a register. */
  datatype Place = Place(addr: nat, bit: nat)

  type Regs = map<nat, set<nat>>

  function Other(c: Color): Color {
    if c.Blue? then Amber else Blue
  }

  function Ranges(b: Board, c: Color): seq<Range> {
    if c.Blue? then b.blue else b.amber
  }

  predicate InRange(r: Range, port: nat) {
    r.startPort <= port <= r.endPort
  }

  function PlaceIn(base: nat, r: Range, port: nat): Place
    requires InRange(r, port)
  {
    Place(base + r.offset, (port - r.startPort) * r.bitsPerPort + r.colorBitOffset)
  }

  /** The first range that holds the port decides. */
  function Resolve(base: nat, rs: seq<Range>, port: nat): Option<Place> {
    if rs == [] then None
    else if InRange(rs[0], port) then Some(PlaceIn(base, rs[0], port))
    else Resolve(base, rs[1..], port)
  }

  function PortBit(b: Board, port: nat, c: Color): Option<Place> {
    Resolve(b.portBase, Ranges(b, c), port)
  }

  function Reg(regs: Regs, addr: nat): set<nat> {
    if addr in regs then regs[addr] else {}
  }

  /** Is the bit, of a register 32 bits wide, 1? */
  predicate Lit(regs: Regs, p: Place) {
    p.bit < 32 && p.bit in Reg(regs, p.addr)
  }

  // ----- What each call does to the registers -----

  /** One locked read-modify-write. Registers are 32 bits wide: higher bits are lost. */
  datatype Rmw = Rmw(addr: nat, off: set<nat>, on: set<nat>)

  function BIT(i: nat): set<nat> {
    if i < 32 then {i} else {}
  }

  function Apply(regs: Regs, w: Rmw): Regs {
    regs[w.addr := Reg(regs, w.addr) - w.off + w.on]
  }

  function ApplyAll(regs: Regs, ws: seq<Rmw>): Regs {
    if ws == [] then regs else Apply(ApplyAll(regs, ws[..|ws| - 1]), ws[|ws| - 1])
  }

  datatype Op =
    | PortSet(port: nat, color: Color, on: bool)
    | CoreSet(info: CoreInfo, value: nat)
    | CoreBlink(info: CoreInfo, on: bool)

  /** mask << color_offset */
  function Field(info: CoreInfo): set<nat> {
    set i | 0 <= i < 32 && InField(info, i)
  }

  predicate InField(info: CoreInfo, i: nat) {
    info.colorOffset <= i < info.colorOffset + info.width
  }

  predicate BitOf(value: nat, i: nat)
    decreases i
  {
    if i == 0 then value % 2 == 1 else BitOf(value / 2, i - 1)
  }

  /** (brightness & mask) << color_offset */
  function FieldValue(info: CoreInfo, value: nat): set<nat> {
    set i | i in Field(info) && i >= info.colorOffset && BitOf(value, i - info.colorOffset)
  }

  /** The read-modify-writes of a call, all under one hold of the lock. */
  function Plan(b: Board, op: Op): seq<Rmw> {
    match op
    case PortSet(port, color, on) =>
      (match PortBit(b, port, color)
       case None => []
       case Some(p) =>
         if !on then [Rmw(p.addr, BIT(p.bit), {})]
         else match PortBit(b, port, Other(color))
              case None => []
              case Some(q) =>
                if q.addr == p.addr then [Rmw(p.addr, BIT(q.bit), BIT(p.bit))]
                else [Rmw(q.addr, BIT(q.bit), {}), Rmw(p.addr, {}, BIT(p.bit))])
    case CoreSet(info, value) => [Rmw(b.control, Field(info), FieldValue(info, value))]
    case CoreBlink(info, on) =>
      [if on then Rmw(b.control, {}, BIT(info.blinkBit)) else Rmw(b.control, BIT(info.blinkBit), {})]
  }

  function Plans(b: Board, ops: seq<Op>): seq<Rmw> {
    if ops == [] then [] else Plans(b, ops[..|ops| - 1]) + Plan(b, ops[|ops| - 1])
  }

  lemma ApplyTwo(regs: Regs, v: Rmw, w: Rmw)
    ensures ApplyAll(regs, [v, w]) == Apply(Apply(regs, v), w)
  {
    ApplyOneMore(regs, [], v);
    ApplyOneMore(regs, [v], w);
    assert [] + [v] == [v] && [v] + [w] == [v, w];
  }

  lemma ApplyOne(regs: Regs, w: Rmw)
    ensures ApplyAll(regs, [w]) == Apply(regs, w)
  {
    ApplyOneMore(regs, [], w);
    assert [] + [w] == [w];
  }

  lemma Nothing(x: set<nat>)
    ensures x - {} == x && x + {} == x
  {
  }

  // ----- What a call means -----

  /** The call's own LED is lit if and only if asked; if it is, the port's other LED is
      dark; every other bit is as before. */
  ghost predicate Switched(b: Board, before: Regs, after: Regs, port: nat, c: Color, on: bool) {
    var own, other := PortBit(b, port, c), PortBit(b, port, if c == Blue then Amber else Blue);
    && own.Some? && (own.value.bit < 32 ==> (Lit(after, own.value) <==> on))
    && (on ==> other.Some? && (other != own ==> !Lit(after, other.value)))
    && forall p :: Some(p) != own && (on ==> Some(p) != other) ==> (Lit(after, p) <==> Lit(before, p))
  }

  /** The bit p after one write. */
  predicate After(before: bool, w: Rmw, p: Place) {
    if w.addr == p.addr && p.bit in w.on then p.bit < 32
    else !(w.addr == p.addr && p.bit in w.off) && before
  }

  lemma ApplyLit(regs: Regs, w: Rmw, p: Place)
    ensures Lit(Apply(regs, w), p) <==> After(Lit(regs, p), w, p)
    ensures Lit(regs, p) ==> p.bit < 32
  {
  }

  predicate Accepted(b: Board, port: nat, c: Color, on: bool) {
    PortBit(b, port, c).Some? && (on ==> PortBit(b, port, Other(c)).Some?)
  }

  lemma PortSetSwitches(b: Board, regs: Regs, port: nat, c: Color, on: bool)
    requires Accepted(b, port, c, on)
    ensures Switched(b, regs, ApplyAll(regs, Plan(b, PortSet(port, c, on))), port, c, on)
  {
    hide PortBit, ApplyAll, Apply, Lit;
    var ws := Plan(b, PortSet(port, c, on));
    var after := ApplyAll(regs, ws);
    if |ws| == 2 {
      ApplyTwo(regs, ws[0], ws[1]);
      assert ws == [ws[0], ws[1]];
      forall p ensures (Lit(after, p) <==> After(After(Lit(regs, p), ws[0], p), ws[1], p))
                       && (Lit(after, p) ==> p.bit < 32) {
        ApplyLit(after, ws[1], p);
        ApplyLit(Apply(regs, ws[0]), ws[1], p);
        ApplyLit(regs, ws[0], p);
      }
    } else {
      ApplyOne(regs, ws[0]);
      assert ws == [ws[0]];
      forall p ensures (Lit(after, p) <==> After(Lit(regs, p), ws[0], p))
                       && (Lit(after, p) ==> p.bit < 32) {
        ApplyLit(after, ws[0], p);
        ApplyLit(regs, ws[0], p);
      }
    }
  }

  function Pow2(n: nat): (r: nat)
    ensures r > 0
  {
    if n == 0 then 1 else 2 * Pow2(n - 1)
  }

  /** The number that w bits of a register spell, from bit k up. */
  function Number(reg: set<nat>, k: nat, w: nat): nat
    decreases w
  {
    if w == 0 then 0 else (if k in reg then 1 else 0) + 2 * Number(reg, k + 1, w - 1)
  }

  lemma {:induction false} NumberOfBits(reg: set<nat>, k: nat, w: nat, value: nat)
    requires forall i :: 0 <= i < w ==> (k + i in reg <==> BitOf(value, i))
    ensures Number(reg, k, w) == value % Pow2(w)
    decreases w
  {
    if w > 0 {
      assert k + 0 in reg <==> BitOf(value, 0);
      forall i | 0 <= i < w - 1 ensures k + 1 + i in reg <==> BitOf(value / 2, i) {
        assert k + (i + 1) in reg <==> BitOf(value, i + 1);
      }
      NumberOfBits(reg, k + 1, w - 1, value / 2);
      HalfMod(value, Pow2(w - 1));
    }
  }

  lemma HalfMod(v: nat, n: nat)
    requires n > 0
    ensures v % 2 + 2 * ((v / 2) % n) == v % (2 * n)
  {
    var q, r := v / 2 / n, (v / 2) % n;
    Twice(q, n);
    ModIs(v, 2 * n, q, 2 * r + v % 2);
  }

  lemma Twice(q: nat, n: nat)
    ensures q * (2 * n) == 2 * (q * n)
  {
  }

  lemma ModIs(v: nat, d: nat, q: nat, r: nat)
    requires d > 0 && v == q * d + r && r < d
    ensures v % d == r
  {
    Multiples(v / d, q, d, v % d, r);
  }

  /** The field, as far as it fits the register, reads back the value modulo its width,
      and every other bit is as before. */
  ghost predicate FieldHolds(b: Board, before: Regs, after: Regs, info: CoreInfo, value: nat) {
    && (forall w: nat :: w <= info.width && info.colorOffset + w <= 32 ==>
          Number(Reg(after, b.control), info.colorOffset, w) == value % Pow2(w))
    && (forall p: Place :: p.addr != b.control || !(0 <= p.bit - info.colorOffset < info.width) ==>
          (Lit(after, p) <==> Lit(before, p)))
  }

  lemma CoreSetHolds(b: Board, regs: Regs, info: CoreInfo, value: nat)
    ensures FieldHolds(b, regs, ApplyAll(regs, Plan(b, CoreSet(info, value))), info, value)
  {
    hide ApplyAll;
    var plan := Plan(b, CoreSet(info, value));
    ApplyOne(regs, plan[0]);
    var after := Apply(regs, plan[0]);
    forall w: nat | w <= info.width && info.colorOffset + w <= 32
      ensures Number(Reg(after, b.control), info.colorOffset, w) == value % Pow2(w)
    {
      NumberOfBits(Reg(after, b.control), info.colorOffset, w, value);
    }
  }

  // ----- The drivers in their own form -----

  /** The first n ranges do not hold the port. */
  predicate NoneBefore(rs: seq<Range>, n: nat, port: nat) {
    n <= |rs| && forall j :: 0 <= j < n ==> port < rs[j].startPort || port > rs[j].endPort
  }

  /** The range holds the port, and p is its place there. */
  predicate HasPlace(b: Board, r: Range, port: nat, p: Place) {
    && r.startPort <= port <= r.endPort
    && p.addr == b.portBase + r.offset
    && p.bit == (port - r.startPort) * r.bitsPerPort + r.colorBitOffset
  }

  /** nh_port_led_get_bit_and_offset */
  method GetBitAndOffset(b: Board, color: Color, port: nat) returns (ok: bool, p: Place)
    ensures ok <==> PortBit(b, port, color).Some?
    ensures ok ==> PortBit(b, port, color) == Some(p)
    ensures var rs := if color.Blue? then b.blue else b.amber;
            if ok then exists i :: 0 <= i < |rs| && NoneBefore(rs, i, port) && HasPlace(b, rs[i], port, p)
            else NoneBefore(rs, |rs|, port)
  {
    var rs := Ranges(b, color);
    p := Place(0, 0);
    var i := 0;
    while i < |rs|
      invariant 0 <= i <= |rs|
      invariant Resolve(b.portBase, rs, port) == Resolve(b.portBase, rs[i..], port)
      invariant NoneBefore(rs, i, port)
    {
      assert rs[i..][1..] == rs[i + 1..];
      if port >= rs[i].startPort && port <= rs[i].endPort {
        p := Place(b.portBase + rs[i].offset,
                   (port - rs[i].startPort) * rs[i].bitsPerPort + rs[i].colorBitOffset);
        assert HasPlace(b, rs[i], port, p);
        return true, p;
      }
      i := i + 1;
    }
    return false, p;
  }

  class LedBlock {
    const board: Board
    var regs: Regs

    /** nh_port_led_brightness_set */
    method PortBrightnessSet(port: nat, color: Color, on: bool) returns (ok: bool)
      modifies this`regs
      ensures regs == ApplyAll(old(regs), Plan(board, PortSet(port, color, on)))
      ensures ok <==> PortBit(board, port, color).Some?
                      && (on ==> PortBit(board, port, Other(color)).Some?)
      ensures !ok ==> regs == old(regs)
      ensures ok ==> Switched(board, old(regs), regs, port, color, on)
    {
      if Accepted(board, port, color, on) {
        PortSetSwitches(board, regs, port, color, on);
      }
      ghost var ws := Plan(board, PortSet(port, color, on));
      var p, q;
      ok, p := GetBitAndOffset(board, color, port);
      if !ok {
        return;
      }
      var reg: set<nat>;
      if on {
        ok, q := GetBitAndOffset(board, Other(color), port);
        if !ok {
          return;
        }
        if q.addr == p.addr {
          reg := Reg(regs, p.addr);
          reg := reg - BIT(q.bit);
          reg := reg + BIT(p.bit);
        } else {
          ApplyTwo(regs, ws[0], ws[1]);
          assert ws == [ws[0], ws[1]];
          Nothing(Reg(regs, q.addr) - BIT(q.bit));
          regs := regs[q.addr := Reg(regs, q.addr) - BIT(q.bit)];
          assert regs == Apply(old(regs), ws[0]);
          Nothing(Reg(regs, p.addr));
          reg := Reg(regs, p.addr) + BIT(p.bit);
        }
      } else {
        reg := Reg(regs, p.addr) - BIT(p.bit);
        Nothing(reg);
      }
      regs := regs[p.addr := reg];
    }

    /** nh_led_brightness_set */
    method CoreBrightnessSet(info: CoreInfo, brightness: nat)
      modifies this`regs
      ensures regs == ApplyAll(old(regs), Plan(board, CoreSet(info, brightness)))
      ensures FieldHolds(board, old(regs), regs, info, brightness)
    {
      CoreSetHolds(board, regs, info, brightness);
      var reg := Reg(regs, board.control);
      reg := reg - Field(info);
      reg := reg + FieldValue(info, brightness);
      regs := regs[board.control := reg];
    }

    /** nh_led_blink_set */
    method CoreBlinkSet(info: CoreInfo, delayOn: nat, delayOff: nat)
      modifies this`regs
      ensures regs == ApplyAll(old(regs),
                               Plan(board, CoreBlink(info, delayOn != 0 || delayOff != 0)))
      ensures info.blinkBit < 32 ==>
                (info.blinkBit in Reg(regs, board.control) <==> delayOn != 0 || delayOff != 0)
      ensures forall b :: b != info.blinkBit ==>
                (b in Reg(regs, board.control) <==> b in Reg(old(regs), board.control))
      ensures forall a :: a != board.control ==> Reg(regs, a) == Reg(old(regs), a)
    {
      var reg := Reg(regs, board.control);
      Nothing(reg);
      Nothing(reg - BIT(info.blinkBit));
      if delayOn != 0 || delayOff != 0 {
        reg := reg + BIT(info.blinkBit);
      } else {
        reg := reg - BIT(info.blinkBit);
      }
      regs := regs[board.control := reg];
    }
  }

  // ----- What a sequence of read-modify-writes means for one bit -----

  predicate Touches(w: Rmw, p: Place) {
    w.addr == p.addr && p.bit in w.off + w.on
  }

  /** The last write that touches the bit decides it; otherwise it keeps its value. */
  predicate Decided(before: bool, ws: seq<Rmw>, p: Place) {
    if ws == [] then before
    else if Touches(ws[|ws| - 1], p) then p.bit in ws[|ws| - 1].on
    else Decided(before, ws[..|ws| - 1], p)
  }

  lemma {:induction false} LastWriteDecides(regs: Regs, ws: seq<Rmw>, p: Place)
    requires p.bit < 32
    ensures Lit(ApplyAll(regs, ws), p) <==> Decided(Lit(regs, p), ws, p)
  {
    if ws != [] {
      LastWriteDecides(regs, ws[..|ws| - 1], p);
    }
  }

  // ----- Any number of threads -----

  datatype Pc =
    | Idle
    | Wait(op: Op)                               // mutex_lock
    | Ready(op: Op, k: nat)                      // k read-modify-writes are done
    | Loaded(op: Op, k: nat, value: set<nat>)    // and the next has read its register

  /** order: the calls that have taken the lock, in that order. */
  datatype State = State(regs: Regs, lock: Option<nat>, threads: map<nat, Pc>, order: seq<Op>)

  datatype Action = Start(op: Op) | Go

  function PcOf(s: State, t: nat): Pc {
    if t in s.threads then s.threads[t] else Idle
  }

  function To(s: State, t: nat, pc: Pc): State {
    s.(threads := s.threads[t := pc])
  }

  /** A port without its color in the table is refused before the lock is taken. */
  predicate Refused(b: Board, op: Op) {
    op.PortSet? && PortBit(b, op.port, op.color).None?
  }

  function Step(b: Board, s: State, t: nat, a: Action): State {
    match PcOf(s, t)
    case Idle => if a.Start? && !Refused(b, a.op) then To(s, t, Wait(a.op)) else s
    case Wait(op) =>
      if s.lock.None? then To(s.(lock := Some(t), order := s.order + [op]), t, Ready(op, 0)) else s
    case Ready(op, k) =>
      if k < |Plan(b, op)| then To(s, t, Loaded(op, k, Reg(s.regs, Plan(b, op)[k].addr)))
      else To(s.(lock := None), t, Idle)
    case Loaded(op, k, value) =>
      if k < |Plan(b, op)| then
        var w := Plan(b, op)[k];
        To(s.(regs := s.regs[w.addr := value - w.off + w.on]), t, Ready(op, k + 1))
      else s
  }

  function Run(b: Board, s: State, steps: seq<(nat, Action)>): State
    decreases |steps|
  {
    if steps == [] then s else Run(b, Step(b, s, steps[0].0, steps[0].1), steps[1..])
  }

  function Init(regs: Regs): State {
    State(regs, None, map[], [])
  }

  /** What the holder of the lock has done so far. */
  function Done(b: Board, s: State): seq<Rmw> {
    if s.lock.Some? && s.order != [] then
      var pc := PcOf(s, s.lock.value);
      var n := |s.order| - 1;
      Plans(b, s.order[..n])
      + (if (pc.Ready? || pc.Loaded?) && pc.k <= |Plan(b, s.order[n])|
         then Plan(b, s.order[n])[..pc.k] else [])
    else Plans(b, s.order)
  }

  ghost predicate Inv(b: Board, start: Regs, s: State) {
    && (forall t: nat :: (PcOf(s, t).Ready? || PcOf(s, t).Loaded?) <==> s.lock == Some(t))
    && (s.lock.Some? ==> HolderOk(b, s, PcOf(s, s.lock.value)))
    && s.regs == ApplyAll(start, Done(b, s))
  }

  predicate HolderOk(b: Board, s: State, pc: Pc) {
    && (pc.Ready? || pc.Loaded?)
    && s.order != [] && s.order[|s.order| - 1] == pc.op
    && pc.k <= |Plan(b, pc.op)|
    && (pc.Loaded? ==> pc.k < |Plan(b, pc.op)| && pc.value == Reg(s.regs, Plan(b, pc.op)[pc.k].addr))
  }

  lemma StepKeepsInv(b: Board, start: Regs, s: State, t: nat, a: Action)
    requires Inv(b, start, s)
    ensures Inv(b, start, Step(b, s, t, a))
  {
    hide Plan, Inv, Step;
    match PcOf(s, t)
    case Idle => WaitingKeepsInv(b, start, s, t, a);
    case Wait(_) => WaitingKeepsInv(b, start, s, t, a);
    case Ready(_, _) => ReadKeepsInv(b, start, s, t, a);
    case Loaded(_, _, _) => WriteKeepsInv(b, start, s, t, a);
  }

  lemma WaitingKeepsInv(b: Board, start: Regs, s: State, t: nat, a: Action)
    requires Inv(b, start, s) && (PcOf(s, t).Idle? || PcOf(s, t).Wait?)
    ensures Inv(b, start, Step(b, s, t, a))
  {
    hide Plan, Plans, ApplyAll;
    if PcOf(s, t).Wait? {
      LockDoesNothing(b, s, PcOf(s, t).op);
    }
  }

  lemma ReadKeepsInv(b: Board, start: Regs, s: State, t: nat, a: Action)
    requires Inv(b, start, s) && PcOf(s, t).Ready?
    ensures Inv(b, start, Step(b, s, t, a))
  {
    hide Plan, Plans, ApplyAll;
    UnlockDoesNothing(b, s, PcOf(s, t).op, PcOf(s, t).k);
  }

  lemma WriteKeepsInv(b: Board, start: Regs, s: State, t: nat, a: Action)
    requires Inv(b, start, s) && PcOf(s, t).Loaded?
    ensures Inv(b, start, Step(b, s, t, a))
  {
    hide Plan, Plans, ApplyAll;
    WriteIsApply(b, start, s, PcOf(s, t).op, PcOf(s, t).k);
  }

  lemma LockDoesNothing(b: Board, s: State, op: Op)
    ensures var order := s.order + [op];
            order[..|order| - 1] == s.order && Plan(b, op)[..0] == []
            && Plans(b, s.order) + Plan(b, op)[..0] == Plans(b, s.order)
  {
    hide Plan, Plans;
  }

  lemma UnlockDoesNothing(b: Board, s: State, op: Op, k: nat)
    requires s.order != [] && s.order[|s.order| - 1] == op && k <= |Plan(b, op)|
    ensures k == |Plan(b, op)| ==>
              Plans(b, s.order[..|s.order| - 1]) + Plan(b, op)[..k] == Plans(b, s.order)
  {
    hide Plan;
    if k == |Plan(b, op)| {
      assert Plan(b, op)[..k] == Plan(b, op);
    }
  }

  /** The value written is the register's own, as nobody else can write in between. */
  lemma WriteIsApply(b: Board, start: Regs, s: State, op: Op, k: nat)
    requires k < |Plan(b, op)| && s.order != [] && s.order[|s.order| - 1] == op
    requires var n := |s.order| - 1;
             s.regs == ApplyAll(start, Plans(b, s.order[..n]) + Plan(b, op)[..k])
    ensures var n := |s.order| - 1;
            Apply(s.regs, Plan(b, op)[k]) == ApplyAll(start, Plans(b, s.order[..n]) + Plan(b, op)[..k + 1])
  {
    hide Plan, Plans, ApplyAll;
    var before, plan := Plans(b, s.order[..|s.order| - 1]), Plan(b, op);
    ApplyOneMore(start, before + plan[..k], plan[k]);
    assert before + plan[..k + 1] == (before + plan[..k]) + [plan[k]];
  }

  lemma ApplyOneMore(regs: Regs, ws: seq<Rmw>, w: Rmw)
    ensures ApplyAll(regs, ws + [w]) == Apply(ApplyAll(regs, ws), w)
  {
    assert (ws + [w])[..|ws|] == ws;
  }

  lemma {:induction false} RunKeepsInv(b: Board, start: Regs, s: State, steps: seq<(nat, Action)>)
    requires Inv(b, start, s)
    ensures Inv(b, start, Run(b, s, steps))
    decreases |steps|
  {
    hide Inv, Step;
    if steps != [] {
      StepKeepsInv(b, start, s, steps[0].0, steps[0].1);
      RunKeepsInv(b, start, Step(b, s, steps[0].0, steps[0].1), steps[1..]);
    }
  }

  /** No lost update: in any interleaving of any number of port LED sets, core LED sets
      and blink sets, whenever the lock is free the registers are those of running
      the calls one after the other in lock order; so every bit has the value that
      the last call touching it gave it, and the others are as they were. */
  lemma RunsAreSerial(b: Board, start: Regs, steps: seq<(nat, Action)>, p: Place)
    requires Run(b, Init(start), steps).lock.None? && p.bit < 32
    ensures var s := Run(b, Init(start), steps);
            && s.regs == ApplyAll(start, Plans(b, s.order))
            && (Lit(s.regs, p) <==> Decided(Lit(start, p), Plans(b, s.order), p))
  {
    RunKeepsInv(b, start, Init(start), steps);
    LastWriteDecides(start, Plans(b, Run(b, Init(start), steps).order), p);
  }

  // ----- Two colors, never both -----

  /** Are both colors of the port on? */
  predicate Both(b: Board, regs: Regs, port: nat) {
    && PortBit(b, port, Blue).Some? && PortBit(b, port, Amber).Some?
    && Lit(regs, PortBit(b, port, Blue).value) && Lit(regs, PortBit(b, port, Amber).value)
  }

  /** No two LEDs share a bit. */
  ghost predicate Disjoint(b: Board) {
    forall p: nat, c: Color, q: nat, d: Color ::
      PortBit(b, p, c).Some? && PortBit(b, q, d).Some? && PortBit(b, p, c) == PortBit(b, q, d) ==>
        p == q && c == d
  }

  /** The call's core LED fields hold no port LED. */
  ghost predicate Apart(b: Board, op: Op) {
    match op
    case PortSet(_, _, _) => true
    case CoreSet(info, _) => forall i :: i in Field(info) ==> !IsPortBit(b, Place(b.control, i))
    case CoreBlink(info, _) => !IsPortBit(b, Place(b.control, info.blinkBit))
  }

  ghost predicate IsPortBit(b: Board, p: Place) {
    exists port: nat, c: Color :: PortBit(b, port, c) == Some(p)
  }

  /** Who can turn a port LED on: only its own call, which has then turned the other
      color off, in the same write or in the one before. */
  lemma OnlyOwnCallLights(b: Board, op: Op, k: nat, port: nat, c: Color)
    requires Disjoint(b) && Apart(b, op) && k < |Plan(b, op)| && PortBit(b, port, c).Some?
    requires var w, p := Plan(b, op)[k], PortBit(b, port, c).value;
             w.addr == p.addr && p.bit in w.on
    ensures op == PortSet(port, c, true) && PortBit(b, port, Other(c)).Some?
    ensures var q := PortBit(b, port, Other(c)).value;
            || (k == 0 && |Plan(b, op)| == 1 && Plan(b, op)[0].addr == q.addr
                && Plan(b, op)[0].off == BIT(q.bit) && Plan(b, op)[0].on == BIT(PortBit(b, port, c).value.bit))
            || (k == 1 && Plan(b, op)[0] == Rmw(q.addr, BIT(q.bit), {}) && q.addr != Plan(b, op)[1].addr)
  {
    var p := PortBit(b, port, c).value;
    assert IsPortBit(b, p);
    match op
    case PortSet(port', color, on) =>
      assert PortBit(b, port', color) == Some(p);
    case CoreSet(info, value) =>
    case CoreBlink(info, on) =>
  }

  /** Between the two writes of a call that lights a port LED, the other color is off. */
  predicate OffFirst(b: Board, s: State) {
    s.lock.Some? && (PcOf(s, s.lock.value).Ready? || PcOf(s, s.lock.value).Loaded?) ==>
      var pc := PcOf(s, s.lock.value);
      pc.op.PortSet? && pc.op.on && pc.k == 1 && |Plan(b, pc.op)| == 2
      && PortBit(b, pc.op.port, Other(pc.op.color)).Some? ==>
        !Lit(s.regs, PortBit(b, pc.op.port, Other(pc.op.color)).value)
  }

  /** Every call in flight keeps its core LED fields off the port LEDs. */
  ghost predicate AllApart(b: Board, s: State) {
    forall t: nat :: PcOf(s, t).Idle? || Apart(b, PcOf(s, t).op)
  }

  ghost predicate ColorInv(b: Board, start: Regs, s: State) {
    Inv(b, start, s) && OffFirst(b, s) && AllApart(b, s)
  }

  /** Only a write of the lock holder changes the registers. */
  lemma WriteKeepsColors(b: Board, start: Regs, s: State, t: nat, a: Action, port: nat)
    requires Disjoint(b) && ColorInv(b, start, s)
    requires PcOf(s, t).Loaded? && !Both(b, s.regs, port)
    ensures !Both(b, Step(b, s, t, a).regs, port)
  {
    hide ApplyAll, Plans, Done;
    var r := Step(b, s, t, a);
    if Both(b, r.regs, port) {
      var pc := PcOf(s, t);
      var w := Plan(b, pc.op)[pc.k];
      assert r.regs == Apply(s.regs, w);
      var c := if Lit(s.regs, PortBit(b, port, Blue).value) then Amber else Blue;
      assert !Lit(s.regs, PortBit(b, port, c).value);
      OnlyOwnCallLights(b, pc.op, pc.k, port, c);
    }
  }

  /** No access of any thread takes a port from "not both colors" to "both colors". */
  lemma StepKeepsColors(b: Board, start: Regs, s: State, t: nat, a: Action, port: nat)
    requires Disjoint(b) && ColorInv(b, start, s)
    requires !Both(b, s.regs, port)
    ensures !Both(b, Step(b, s, t, a).regs, port)
  {
    hide Both, Inv, OffFirst, AllApart;
    if PcOf(s, t).Loaded? {
      WriteKeepsColors(b, start, s, t, a, port);
    }
  }

  lemma StepKeepsColorInv(b: Board, start: Regs, s: State, t: nat, a: Action)
    requires Disjoint(b) && ColorInv(b, start, s) && (a.Start? ==> Apart(b, a.op))
    ensures ColorInv(b, start, Step(b, s, t, a))
  {
    hide Apart, Plan, Inv, Disjoint;
    StepKeepsInv(b, start, s, t, a);
    StepKeepsOffFirst(b, start, s, t, a);
    var r := Step(b, s, t, a);
    forall u: nat ensures PcOf(r, u).Idle? || Apart(b, PcOf(r, u).op) {
      assert PcOf(s, u).Idle? || Apart(b, PcOf(s, u).op);
    }
  }

  lemma StepKeepsOffFirst(b: Board, start: Regs, s: State, t: nat, a: Action)
    requires Disjoint(b) && ColorInv(b, start, s)
    ensures OffFirst(b, Step(b, s, t, a))
  {
    hide Apart, ApplyAll, Plans, Done;
  }

  ghost predicate StepsApart(b: Board, steps: seq<(nat, Action)>) {
    forall i :: 0 <= i < |steps| && steps[i].1.Start? ==> Apart(b, steps[i].1.op)
  }

  /** In any run of any number of threads, a port that starts with at most one color
      lit never shows both, at no access to a register, whether its colors share a
      register or not. */
  lemma {:induction false} NeverBothColors(b: Board, start: Regs, steps: seq<(nat, Action)>, port: nat)
    requires Disjoint(b) && StepsApart(b, steps) && !Both(b, start, port)
    ensures !Both(b, Run(b, Init(start), steps).regs, port)
  {
    hide Disjoint, Apart, Both;
    ColorsHold(b, start, Init(start), steps, port);
  }

  lemma {:induction false} ColorsHold(b: Board, start: Regs, s: State, steps: seq<(nat, Action)>, port: nat)
    requires Disjoint(b) && StepsApart(b, steps) && ColorInv(b, start, s) && !Both(b, s.regs, port)
    ensures !Both(b, Run(b, s, steps).regs, port)
    decreases |steps|
  {
    hide Disjoint, Apart, Both, ColorInv, Step;
    if steps != [] {
      StepKeepsColors(b, start, s, steps[0].0, steps[0].1, port);
      StepKeepsColorInv(b, start, s, steps[0].0, steps[0].1);
      ColorsHold(b, start, Step(b, s, steps[0].0, steps[0].1), steps[1..], port);
    }
  }

  // ----- The last call decides -----

  /** What the calls, in this order, ask of the port's LED: the last that sets it or
      lights its sibling decides. */
  predicate Asked(b: Board, before: bool, ops: seq<Op>, port: nat, c: Color)
    decreases |ops|
  {
    if ops == [] then before
    else AskedBy(b, Asked(b, before, ops[..|ops| - 1], port, c), ops[|ops| - 1], port, c)
  }

  predicate AskedBy(b: Board, before: bool, op: Op, port: nat, c: Color) {
    if op.PortSet? && op.port == port && Accepted(b, port, op.color, op.on)
    then if op.color == c then op.on else !op.on && before
    else before
  }

  lemma OneCallDecides(b: Board, regs: Regs, op: Op, port: nat, c: Color)
    requires Disjoint(b) && Apart(b, op) && PortBit(b, port, c).Some?
    ensures var p := PortBit(b, port, c).value;
            p.bit < 32 ==>
              (Lit(ApplyAll(regs, Plan(b, op)), p) <==> AskedBy(b, Lit(regs, p), op, port, c))
  {
    hide ApplyAll, Apply, Plan, PortBit, Lit, FieldHolds;
    var p := PortBit(b, port, c).value;
    assert IsPortBit(b, p);
    if p.bit < 32 {
      match op
      case PortSet(o, d, on) =>
        if Accepted(b, o, d, on) {
          PortSetSwitches(b, regs, o, d, on);
        } else {
          RefusedDoesNothing(b, regs, o, d, on);
        }
      case CoreSet(info, value) =>
        CoreSetHolds(b, regs, info, value);
        OutsideField(b, regs, info, value, p);
      case CoreBlink(info, on) => BlinkElsewhere(b, regs, info, on, p);
    }
  }

  lemma RefusedDoesNothing(b: Board, regs: Regs, port: nat, c: Color, on: bool)
    requires !Accepted(b, port, c, on)
    ensures ApplyAll(regs, Plan(b, PortSet(port, c, on))) == regs
  {
    hide PortBit;
  }

  lemma OutsideField(b: Board, regs: Regs, info: CoreInfo, value: nat, p: Place)
    requires p.bit < 32 && (p.addr == b.control ==> p.bit !in Field(info))
    ensures Lit(ApplyAll(regs, Plan(b, CoreSet(info, value))), p) <==> Lit(regs, p)
  {
    hide ApplyAll, Lit;
    CoreSetHolds(b, regs, info, value);
  }

  lemma BlinkElsewhere(b: Board, regs: Regs, info: CoreInfo, on: bool, p: Place)
    requires p != Place(b.control, info.blinkBit)
    ensures Lit(ApplyAll(regs, Plan(b, CoreBlink(info, on))), p) <==> Lit(regs, p)
  {
    hide ApplyAll, Apply, Lit;
    var w := Plan(b, CoreBlink(info, on))[0];
    ApplyOne(regs, w);
    ApplyLit(regs, w, p);
  }

  lemma {:induction false} LastCallDecides(b: Board, start: Regs, ops: seq<Op>, port: nat, c: Color)
    requires Disjoint(b) && PortBit(b, port, c).Some? && PortBit(b, port, c).value.bit < 32
    requires forall i :: 0 <= i < |ops| ==> Apart(b, ops[i])
    ensures var p := PortBit(b, port, c).value;
            Lit(ApplyAll(start, Plans(b, ops)), p) <==> Asked(b, Lit(start, p), ops, port, c)
  {
    hide Apart, Disjoint, PortBit, Lit, AskedBy, Plan, ApplyAll;
    var n := |ops| - 1;
    if n >= 0 {
      LastCallDecides(b, start, ops[..n], port, c);
      OneCallDecides(b, ApplyAll(start, Plans(b, ops[..n])), ops[n], port, c);
      ApplyInTurn(start, Plans(b, ops[..n]), Plan(b, ops[n]));
    } else {
      NoWrites(start);
    }
  }

  lemma NoWrites(regs: Regs)
    ensures ApplyAll(regs, []) == regs
  {
  }

  lemma {:induction false} ApplyInTurn(regs: Regs, vs: seq<Rmw>, ws: seq<Rmw>)
    ensures ApplyAll(regs, vs + ws) == ApplyAll(ApplyAll(regs, vs), ws)
    decreases |ws|
  {
    hide Apply;
    var n := |ws| - 1;
    if n >= 0 {
      ApplyInTurn(regs, vs, ws[..n]);
      assert vs + ws == (vs + ws[..n]) + [ws[n]];
      ApplyOneMore(regs, vs + ws[..n], ws[n]);
    } else {
      assert vs + ws == vs;
    }
  }

  ghost predicate OrderApart(b: Board, s: State) {
    AllApart(b, s) && forall i :: 0 <= i < |s.order| ==> Apart(b, s.order[i])
  }

  lemma StepKeepsOrderApart(b: Board, s: State, t: nat, a: Action)
    requires OrderApart(b, s) && (a.Start? ==> Apart(b, a.op))
    ensures OrderApart(b, Step(b, s, t, a))
  {
    hide Apart, Plan;
    var r := Step(b, s, t, a);
    forall u: nat ensures PcOf(r, u).Idle? || Apart(b, PcOf(r, u).op) {
      assert PcOf(s, u).Idle? || Apart(b, PcOf(s, u).op);
    }
    assert PcOf(s, t).Idle? || Apart(b, PcOf(s, t).op);
  }

  lemma {:induction false} RunKeepsOrderApart(b: Board, s: State, steps: seq<(nat, Action)>)
    requires OrderApart(b, s) && StepsApart(b, steps)
    ensures OrderApart(b, Run(b, s, steps))
    decreases |steps|
  {
    hide Apart, OrderApart, Step;
    if steps != [] {
      StepKeepsOrderApart(b, s, steps[0].0, steps[0].1);
      RunKeepsOrderApart(b, Step(b, s, steps[0].0, steps[0].1), steps[1..]);
    }
  }

  /** In any interleaving, whenever the lock is free, a port LED is as the last accepted
      call that set it, or lit its sibling, has left it; with no such call it is as it
      was at the start. */
  lemma LastSetDecides(b: Board, start: Regs, steps: seq<(nat, Action)>, port: nat, c: Color)
    requires Disjoint(b) && StepsApart(b, steps)
    requires PortBit(b, port, c).Some? && PortBit(b, port, c).value.bit < 32
    requires Run(b, Init(start), steps).lock.None?
    ensures var s, p := Run(b, Init(start), steps), PortBit(b, port, c).value;
            Lit(s.regs, p) <==> Asked(b, Lit(start, p), s.order, port, c)
  {
    hide Disjoint, Apart, PortBit, Lit, Step;
    RunsAreSerial(b, start, steps, PortBit(b, port, c).value);
    RunKeepsOrderApart(b, Init(start), steps);
    LastCallDecides(b, start, Run(b, Init(start), steps).order, port, c);
  }

  // ----- Every call gets done -----

  function Gos(t: nat, n: nat): seq<(nat, Action)> {
    if n == 0 then [] else [(t, Go)] + Gos(t, n - 1)
  }

  lemma OneGo(b: Board, s: State, t: nat, n: nat)
    ensures Run(b, s, Gos(t, n + 1)) == Run(b, Step(b, s, t, Go), Gos(t, n))
  {
    assert ([(t, Go)] + Gos(t, n))[1..] == Gos(t, n);
  }

  lemma {:induction false} FinishesFrom(b: Board, s: State, t: nat, op: Op, k: nat) returns (n: nat)
    requires PcOf(s, t) == Ready(op, k) && k <= |Plan(b, op)|
    ensures Finished(b, s, t, Plan(b, op)[k..], n)
    decreases |Plan(b, op)| - k
  {
    hide Plan, ApplyAll;
    var s1 := Step(b, s, t, Go);
    if k == |Plan(b, op)| {
      NoWrites(s.regs);
      n := 1;
      OneGo(b, s, t, 0);
    } else {
      var w := Plan(b, op)[k];
      var s2 := Step(b, s1, t, Go);
      assert PcOf(s1, t) == Loaded(op, k, Reg(s.regs, w.addr));
      var i := FinishesFrom(b, s2, t, op, k + 1);
      n := i + 2;
      OneGo(b, s, t, i + 1);
      OneGo(b, s1, t, i);
      ApplyOne(s.regs, w);
      ApplyInTurn(s.regs, [w], Plan(b, op)[k + 1..]);
      assert Plan(b, op)[k..] == [w] + Plan(b, op)[k + 1..];
    }
  }

  /** After n steps of t alone the lock is free and the writes are made. */
  predicate Finished(b: Board, s: State, t: nat, ws: seq<Rmw>, n: nat) {
    var r := Run(b, s, Gos(t, n));
    r.lock.None? && PcOf(r, t) == Idle && r.regs == ApplyAll(s.regs, ws)
  }

  /** A call that finds the lock free gets all its writes done. */
  lemma CallFinishes(b: Board, s: State, t: nat, op: Op) returns (n: nat)
    requires s.lock.None? && PcOf(s, t) == Idle
    ensures Finished(b, Step(b, s, t, Start(op)), t, Plan(b, op), n)
  {
    hide Plan, ApplyAll;
    var s1 := Step(b, s, t, Start(op));
    if Refused(b, op) {
      n := 0;
      RefusedPlan(b, op);
      NoWrites(s.regs);
    } else {
      var i := FinishesFrom(b, Step(b, s1, t, Go), t, op, 0);
      n := i + 1;
      OneGo(b, s1, t, i);
    }
  }

  lemma RefusedPlan(b: Board, op: Op)
    requires Refused(b, op)
    ensures Plan(b, op) == []
  {
  }

  // ----- Which tables are disjoint -----

  /** Two ranges in one register divide it in the same way, and two colors take
      different bits of a port's field. */
  predicate Compatible(r: Range, q: Range, sameColor: bool) {
    r.offset == q.offset ==>
      && r.startPort == q.startPort && r.bitsPerPort == q.bitsPerPort
      && r.colorBitOffset < q.colorBitOffset + r.bitsPerPort
      && q.colorBitOffset < r.colorBitOffset + r.bitsPerPort
      && (!sameColor ==> r.colorBitOffset != q.colorBitOffset)
  }

  predicate TableOk(b: Board) {
    && (forall i, j :: 0 <= i < |b.blue| && 0 <= j < |b.blue| ==> Compatible(b.blue[i], b.blue[j], true))
    && (forall i, j :: 0 <= i < |b.amber| && 0 <= j < |b.amber| ==> Compatible(b.amber[i], b.amber[j], true))
    && (forall i, j :: 0 <= i < |b.blue| && 0 <= j < |b.amber| ==> Compatible(b.blue[i], b.amber[j], false))
  }

  lemma {:induction false} ResolvedIn(base: nat, rs: seq<Range>, port: nat) returns (i: nat)
    requires Resolve(base, rs, port).Some?
    ensures i < |rs| && InRange(rs[i], port) && Resolve(base, rs, port) == Some(PlaceIn(base, rs[i], port))
  {
    if InRange(rs[0], port) {
      i := 0;
    } else {
      var j := ResolvedIn(base, rs[1..], port);
      i := j + 1;
    }
  }

  /** Fields of the same width at multiples of it: equal bits mean equal ports. */
  lemma SameBit(r: Range, q: Range, p: nat, o: nat, sameColor: bool)
    requires InRange(r, p) && InRange(q, o) && r.offset == q.offset && Compatible(r, q, sameColor)
    requires (p - r.startPort) * r.bitsPerPort + r.colorBitOffset
          == (o - q.startPort) * q.bitsPerPort + q.colorBitOffset
    ensures p == o && sameColor
  {
    Multiples(p - r.startPort, o - r.startPort, r.bitsPerPort, r.colorBitOffset, q.colorBitOffset);
  }

  lemma Multiples(a: nat, b: nat, n: nat, x: nat, y: nat)
    requires a * n + x == b * n + y && x < y + n && y < x + n
    ensures a == b && x == y
  {
    if a > b { MulGap(a, b, n); }
    if b > a { MulGap(b, a, n); }
  }

  lemma MulGap(a: nat, b: nat, n: nat)
    requires a > b
    ensures a * n >= b * n + n
  {
    var k := a - b - 1;
    assert k * n >= 0;
    assert (b + 1 + k) * n == b * n + n + k * n;
  }

  /** A table whose ranges are compatible gives every LED a bit of its own. */
  lemma TableIsDisjoint(b: Board)
    requires TableOk(b)
    ensures Disjoint(b)
  {
    forall p: nat, c: Color, q: nat, d: Color |
      PortBit(b, p, c).Some? && PortBit(b, q, d).Some? && PortBit(b, p, c) == PortBit(b, q, d)
      ensures p == q && c == d
    {
      var i := ResolvedIn(b.portBase, Ranges(b, c), p);
      var j := ResolvedIn(b.portBase, Ranges(b, d), q);
      if c.Amber? && d.Blue? {
        SameBit(Ranges(b, d)[j], Ranges(b, c)[i], q, p, false);
      } else {
        SameBit(Ranges(b, c)[i], Ranges(b, d)[j], p, q, c == d);
      }
    }
  }
}
