/** xiic_setclk: the SCL timing registers, computed in 32-bit unsigned arithmetic
    from the input clock and the bus frequency. */
module XiicClock {
  const WORD: int := 0x1_0000_0000
  const LONG: int := 0x1_0000_0000_0000_0000

  const STANDARD: nat := 100000
  const FAST: nat := 400000
  const FAST_PLUS: nat := 1000000

  /** One row of timing_reg_values, in ns. */
  datatype Times = Times(tsusta: nat, tsusto: nat, thdsta: nat, tsudat: nat, tbuf: nat)

  predicate Supported(f: nat) {
    f == STANDARD || f == FAST || f == FAST_PLUS
  }

  function TimesFor(f: nat): Times {
    if f == STANDARD then Times(5700, 5000, 4300, 550, 5000)
    else if f == FAST then Times(900, 900, 900, 400, 1600)
    else Times(380, 380, 380, 170, 620)
  }

  function U32(x: int): nat {
    x % WORD
  }

  /** DIV_ROUND_UP on an unsigned long, stored in 32 bits. */
  function CeilDiv32(n: nat, d: nat): nat
    requires d > 0
  {
    U32(((n + d - 1) % LONG) / d)
  }

  /** The number of cycles for t ns, less one, as written to a register. */
  function Cycles(t: nat, mhz: nat): nat {
    U32(U32(t * mhz) / 1000 - 1)
  }

  /** The timing registers. */
  datatype Regs = Regs(thigh: nat, tlow: nat, tsusta: nat, tsusto: nat, thdsta: nat,
                       tsudat: nat, tbuf: nat, thddat: nat)

  function HalfPeriod(inClk: nat, f: nat): nat
    requires f > 0
  {
    U32(CeilDiv32(inClk, 2 * f) - 7)
  }

  /** Does xiic_setclk return 0? */
  predicate ClkOk(inClk: nat, f: nat) {
    inClk == 0 || f == 0 || (Supported(f) && HalfPeriod(inClk, f) != 0)
  }

  /** The registers after the call. */
  function SetClkRegs(r: Regs, inClk: nat, f: nat): Regs {
    if inClk == 0 || f == 0 || !ClkOk(inClk, f) then r
    else
      var mhz, ts, half := CeilDiv32(inClk, 1000000), TimesFor(f), HalfPeriod(inClk, f);
      Regs(half - 1, half - 1, Cycles(ts.tsusta, mhz), Cycles(ts.tsusto, mhz),
           Cycles(ts.thdsta, mhz), Cycles(ts.tsudat, mhz), Cycles(ts.tbuf, mhz), 1)
  }

  class TimingRegs {
    var regs: Regs

    /** xiic_setclk */
    method SetClk(inputClk: nat, i2cClk: nat) returns (ok: bool)
      requires inputClk < LONG && i2cClk < WORD
      modifies this
      ensures ok == ClkOk(inputClk, i2cClk)
      ensures regs == SetClkRegs(old(regs), inputClk, i2cClk)
      ensures !ok ==> regs == old(regs)
      ensures ok && inputClk > 0 && i2cClk > 0 ==>
                && regs.tlow == regs.thigh && regs.thddat == 1 && Speed(i2cClk)
                && (i2cClk == 100000 ==> TimesWritten(regs, inputClk, 5700, 5000, 4300, 550, 5000))
                && (i2cClk == 400000 ==> TimesWritten(regs, inputClk, 900, 900, 900, 400, 1600))
                && (i2cClk == 1000000 ==> TimesWritten(regs, inputClk, 380, 380, 380, 170, 620))
    {
      hide Cycles, CeilDiv32, U32;
      if i2cClk == 0 || inputClk == 0 {
        return true;
      }
      var clkInMhz := CeilDiv32(inputClk, 1000000);
      var row: Times;
      if i2cClk == FAST_PLUS {
        row := Times(380, 380, 380, 170, 620);
      } else if i2cClk == FAST {
        row := Times(900, 900, 900, 400, 1600);
      } else if i2cClk == STANDARD {
        row := Times(5700, 5000, 4300, 550, 5000);
      } else {
        return false;
      }
      var reg := U32(CeilDiv32(inputClk, 2 * i2cClk) - 7);
      if reg == 0 {
        return false;
      }
      regs := regs.(thigh := reg - 1);
      regs := regs.(tlow := reg - 1);
      regs := regs.(tsusta := Cycles(row.tsusta, clkInMhz));
      regs := regs.(tsusto := Cycles(row.tsusto, clkInMhz));
      regs := regs.(thdsta := Cycles(row.thdsta, clkInMhz));
      regs := regs.(tsudat := Cycles(row.tsudat, clkInMhz));
      regs := regs.(tbuf := Cycles(row.tbuf, clkInMhz));
      regs := regs.(thddat := 1);
      return true;
    }
  }

  // ----- What the registers must mean -----

  /** A clock high or low time of r + 8 cycles: the longest half period of f, rounded up. */
  predicate HalfPeriodExact(inClk: nat, f: nat, r: nat) {
    2 * f * (r + 7) < inClk <= 2 * f * (r + 8)
  }

  /** r + 1 cycles of a clock of mhz MHz are t ns, rounded down to whole cycles. */
  predicate CyclesExact(t: nat, mhz: nat, r: nat) {
    1000 * (r + 1) <= t * mhz < 1000 * (r + 2)
  }

  /** The input clock in MHz, rounded up, without any limit of width. */
  function Mhz(inClk: nat): nat {
    (inClk + 999999) / 1000000
  }

  /** The three speeds of the driver. */
  predicate Speed(f: nat) {
    f == 100000 || f == 400000 || f == 1000000
  }

  predicate AllExact(r: Regs, inClk: nat, f: nat) {
    && HalfPeriodExact(inClk, f, r.thigh) && r.tlow == r.thigh
    && (f == 100000 ==> TimesExact(r, inClk, 5700, 5000, 4300, 550, 5000))
    && (f == 400000 ==> TimesExact(r, inClk, 900, 900, 900, 400, 1600))
    && (f == 1000000 ==> TimesExact(r, inClk, 380, 380, 380, 170, 620))
    && r.thddat == 1
  }

  /** The five times, in ns: setup and hold of START and STOP, data setup, bus free. */
  predicate TimesExact(r: Regs, inClk: nat, susta: nat, susto: nat, hdsta: nat, sudat: nat, buf: nat) {
    var mhz := Mhz(inClk);
    && CyclesExact(susta, mhz, r.tsusta) && CyclesExact(susto, mhz, r.tsusto)
    && CyclesExact(hdsta, mhz, r.thdsta) && CyclesExact(sudat, mhz, r.tsudat)
    && CyclesExact(buf, mhz, r.tbuf)
  }

  /** What is written for these times, whether it is right or has wrapped. */
  predicate TimesWritten(r: Regs, inClk: nat, susta: nat, susto: nat, hdsta: nat, sudat: nat, buf: nat) {
    var mhz := CeilDiv32(inClk, 1000000);
    && r.tsusta == Cycles(susta, mhz) && r.tsusto == Cycles(susto, mhz)
    && r.thdsta == Cycles(hdsta, mhz) && r.tsudat == Cycles(sudat, mhz)
    && r.tbuf == Cycles(buf, mhz)
  }

  /** The longest time in the row of f; its product with the clock must fit 32 bits. */
  function LongestNs(f: nat): nat {
    if f == 100000 then 5700 else if f == 400000 then 1600 else 620
  }

  // ----- Proofs -----

  /** Truncating the clock to 32 bits first makes no difference to a product modulo 2^32. */
  lemma TruncatedProduct(t: nat, mhz: nat)
    ensures U32(t * U32(mhz)) == U32(t * mhz)
  {
    var k := mhz / 0x1_0000_0000;
    assert mhz == k * 0x1_0000_0000 + U32(mhz);
    assert t * mhz == (t * k) * 0x1_0000_0000 + t * U32(mhz);
    AddMultiple(t * U32(mhz), t * k);
  }

  lemma AddMultiple(x: nat, k: nat)
    ensures U32(k * 0x1_0000_0000 + x) == U32(x)
  {
  }

  /** A product that would be right by accident, after the last subtraction has wrapped. */
  predicate Wrapped(p: nat) {
    1000 * 0x1_0000_0000 <= p < 1000 * 0x1_0000_0000 + 1000
  }

  /** The register of one time is right if the product fits and makes a whole cycle;
      and only then, apart from one accident that needs an absurd clock. */
  lemma CyclesExactIf(t: nat, mhz: nat)
    ensures 1000 <= t * mhz < 0x1_0000_0000 ==> CyclesExact(t, mhz, Cycles(t, U32(mhz)))
    ensures CyclesExact(t, mhz, Cycles(t, U32(mhz))) ==>
              1000 <= t * mhz < 0x1_0000_0000 || Wrapped(t * mhz)
  {
    TruncatedProduct(t, mhz);
    ExactProduct(t * mhz, Cycles(t, U32(mhz)));
  }

  lemma ExactProduct(p: nat, r: nat)
    requires r == U32(U32(p) / 1000 - 1)
    ensures 1000 <= p < 0x1_0000_0000 ==> 1000 * (r + 1) <= p < 1000 * (r + 2)
    ensures 1000 * (r + 1) <= p < 1000 * (r + 2) ==> 1000 <= p < 0x1_0000_0000 || Wrapped(p)
  {
    if U32(p) < 1000 {
      assert r == 0x1_0000_0000 - 1;
    } else {
      assert r == U32(p) / 1000 - 1;
    }
  }

  /** The accident cannot happen to two times of a row at once. */
  lemma NoAccident(t1: nat, t2: nat, mhz: nat)
    requires 0 < t2 < t1 <= 11 * t2 && t1 <= 5700
    requires t1 * mhz < 0x1_0000_0000 || Wrapped(t1 * mhz)
    requires t2 * mhz < 0x1_0000_0000 || Wrapped(t2 * mhz)
    ensures t1 * mhz < 0x1_0000_0000
  {
    MulOrder(mhz, t2 + 1, t1);
    MulOrder(mhz, t1, 11 * t2);
    MulOrder(mhz, t2, t1);
    MulOrder(mhz, t1, 5700);
    NotBothWrapped(t1 * mhz, t2 * mhz, mhz);
  }

  lemma MulOrder(m: nat, a: nat, b: nat)
    requires a <= b
    ensures a * m <= b * m
    ensures (a + 1) * m == a * m + m && (11 * a) * m == 11 * (a * m)
  {
  }

  lemma NotBothWrapped(p1: nat, p2: nat, m: nat)
    requires p2 + m <= p1 <= 11 * p2 && p1 <= 5700 * m
    requires p1 < 0x1_0000_0000 || Wrapped(p1)
    requires p2 < 0x1_0000_0000 || Wrapped(p2)
    ensures p1 < 0x1_0000_0000
  {
  }

  /** Rounding up: the quotient q is the one with d * (q - 1) < n <= d * q. */
  lemma CeilBounds(n: nat, d: nat, q: nat)
    requires d > 0
    ensures (n + d - 1) / d == q <==> d * (q - 1) < n <= d * q
  {
    var x := n + d - 1;
    assert x == d * (x / d) + x % d;
    if x / d < q { MulMono(d, x / d + 1, q); }
    if x / d > q { MulMono(d, q + 1, x / d); }
  }

  lemma MulMono(d: nat, a: int, b: int)
    requires a <= b
    ensures d * a <= d * b
  {
  }

  /** THIGH and TLOW are right exactly if the input clock is more than 14 times the
      bus frequency; at 12 to 14 times the call is refused, and below that the
      subtraction wraps around and a huge value is accepted. */
  lemma HalfPeriodCases(inClk: nat, f: nat)
    requires Speed(f) && 0 < inClk < f * 0x1_0000_0000
    ensures inClk > 14 * f ==> ClkOk(inClk, f)
                               && HalfPeriodExact(inClk, f, HalfPeriod(inClk, f) - 1)
    ensures 12 * f < inClk <= 14 * f <==> !ClkOk(inClk, f)
    ensures inClk <= 12 * f ==> 0x1_0000_0000 - 7 < HalfPeriod(inClk, f) < 0x1_0000_0000
  {
    var q := (inClk + 2 * f - 1) / (2 * f);
    CeilBounds(inClk, 2 * f, q);
    CeilBounds(inClk, 2 * f, 7);
    Narrow(inClk, f, q);
    if q > 7 {
      assert HalfPeriod(inClk, f) == q - 7;
    } else if q < 7 {
      assert HalfPeriod(inClk, f) == q - 7 + 0x1_0000_0000;
    }
  }

  /** For such clocks the quotient fits 32 bits. */
  lemma Narrow(inClk: nat, f: nat, q: nat)
    requires Speed(f) && 0 < inClk < f * 0x1_0000_0000
    requires q == (inClk + 2 * f - 1) / (2 * f)
    ensures 0 < q < 0x1_0000_0000 && CeilDiv32(inClk, 2 * f) == q
  {
  }

  /** Every product of the row fits when the longest one does. */
  lemma RowFits(inClk: nat, f: nat)
    requires Speed(f) && inClk > 14 * f && LongestNs(f) * Mhz(inClk) < 0x1_0000_0000
    ensures var ts, m := TimesFor(f), Mhz(inClk);
            && 1000 <= ts.tsusta * m < 0x1_0000_0000 && 1000 <= ts.tsusto * m < 0x1_0000_0000
            && 1000 <= ts.thdsta * m < 0x1_0000_0000 && 1000 <= ts.tsudat * m < 0x1_0000_0000
            && 1000 <= ts.tbuf * m < 0x1_0000_0000
  {
  }

  /** The rounded-up clock, when it fits. */
  lemma ClockInMhz(inClk: nat)
    requires inClk + 999999 < 0x1_0000_0000_0000_0000
    ensures CeilDiv32(inClk, 1000000) == U32(Mhz(inClk))
  {
  }

  /** The call sets every timing register to the right value if and only if the
      input clock is more than 14 times the bus frequency and the longest time of
      the row still fits 32 bits when multiplied by it. */
  lemma SetClkIsExactIff(r: Regs, inClk: nat, f: nat)
    requires Speed(f) && 0 < inClk && inClk + 2 * 1000000 <= 0x1_0000_0000_0000_0000
    ensures ClkOk(inClk, f) && AllExact(SetClkRegs(r, inClk, f), inClk, f) <==>
            inClk > 14 * f && LongestNs(f) * Mhz(inClk) < 0x1_0000_0000
  {
    hide Cycles, HalfPeriod, CeilDiv32, U32;
    ClockInMhz(inClk);
    var m, ts := Mhz(inClk), TimesFor(f);
    CyclesExactIf(ts.tsusta, m);
    CyclesExactIf(ts.tsusto, m);
    CyclesExactIf(ts.thdsta, m);
    CyclesExactIf(ts.tsudat, m);
    CyclesExactIf(ts.tbuf, m);
    if LongestNs(f) * m < 0x1_0000_0000 {
      HalfPeriodCases(inClk, f);
      if inClk > 14 * f {
        RowFits(inClk, f);
      } else if ClkOk(inClk, f) {
        HugeHalfPeriod(inClk, f);
      }
    } else if ClkOk(inClk, f) && AllExact(SetClkRegs(r, inClk, f), inClk, f) {
      NoAccident(LongestNs(f), ts.tsudat, m);
    }
  }

  lemma HugeHalfPeriod(inClk: nat, f: nat)
    requires Speed(f) && 0 < inClk <= 12 * f
    ensures HalfPeriod(inClk, f) != 0 ==> !HalfPeriodExact(inClk, f, HalfPeriod(inClk, f) - 1)
  {
    HalfPeriodCases(inClk, f);
  }

  /** The cases in which the driver starts up with no complaint. */
  lemma ClkOkIff(inClk: nat, f: nat)
    requires Speed(f) ==> inClk < f * 0x1_0000_0000
    ensures ClkOk(inClk, f) <==>
              inClk == 0 || f == 0 || (Speed(f) && !(12 * f < inClk <= 14 * f))
  {
    if Speed(f) && inClk > 0 {
      HalfPeriodCases(inClk, f);
    }
  }
}
