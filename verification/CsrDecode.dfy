/** From the CSR offset of an I2C controller to its MSI domain and interrupt, and to
    its place in the mux table. */
module CsrDecode {
  import opened Wrappers

  const BLOCK_BASE: nat := 0x40000
  const MASTER_STRIDE: nat := 0x200

  /** struct nh_fpga_msi_domain_cfg */
  datatype Domain = Domain(firstMaster: int, lastMaster: int, firstHwIrq: nat)

  /** struct nh_fpga_irq_cfg */
  datatype IrqCfg = IrqCfg(domains: seq<Domain>, csrBase: nat, channelSize: nat)

  function U8(x: int): nat {
    x % 256
  }

  predicate Covers(d: Domain, m: int) {
    d.firstMaster <= m <= d.lastMaster
  }

  /** The index of the first domain that covers the master. */
  function FirstDomain(ds: seq<Domain>, m: int): Option<nat> {
    if ds == [] then None
    else if Covers(ds[0], m) then Some(0)
    else match FirstDomain(ds[1..], m)
         case None => None
         case Some(i) => Some(i + 1)
  }

  /** Position in the CSR block; any offset inside a window counts. */
  function MasterIndex(cfg: IrqCfg, offset: nat): int
    requires cfg.channelSize > 0
  {
    (offset - cfg.csrBase) / cfg.channelSize
  }

  /** The interrupt within a domain is kept in 8 bits. */
  function HwIrq(d: Domain, m: int): nat {
    U8(d.firstHwIrq + (m - d.firstMaster))
  }

  datatype Line = NoLine | Line(domain: nat, hwIrq: nat)

  function Decode(cfg: IrqCfg, offset: nat): Line {
    if offset < cfg.csrBase || cfg.channelSize == 0 then NoLine
    else
      var m := MasterIndex(cfg, offset);
      match FirstDomain(cfg.domains, m)
      case None => NoLine
      case Some(i) => if i < |cfg.domains| then Line(i, HwIrq(cfg.domains[i], m)) else NoLine
  }

  datatype Result = Ok(virq: int) | ENoEnt | ENoDev | Err(code: int)

  /** nh_fpga_resolve_master_irq_clk. ready: which irq chips exist; virqs: what
      regmap_irq_get_virq answers, 0 when there is nothing. At most 256 domains. */
  method ResolveMasterIrq(cfg: Option<IrqCfg>, offset: nat, ready: seq<bool>,
                          virqs: map<(nat, nat), int>) returns (r: Result)
    requires cfg.Some? ==> |ready| == |cfg.value.domains| <= 256
    ensures cfg.None? || Decode(cfg.value, offset).NoLine? ==> r == ENoEnt
    ensures cfg.Some? && Decode(cfg.value, offset).Line? ==>
              var line := Decode(cfg.value, offset);
              var key := (line.domain, line.hwIrq);
              var virq := if key in virqs then virqs[key] else 0;
              r == if line.domain >= |ready| || !ready[line.domain] || virq == 0 then ENoDev
                   else if virq < 0 then Err(virq) else Ok(virq)
  {
    if cfg.None? {
      return ENoEnt;
    }
    var c := cfg.value;
    if offset < c.csrBase || c.channelSize == 0 {
      return ENoEnt;
    }
    var m := (offset - c.csrBase) / c.channelSize;
    var msiDomain, hwIrq := 0, 0;
    var i := 0;
    while i < |c.domains|
      invariant 0 <= i <= |c.domains|
      invariant FirstDomain(c.domains, m)
             == match FirstDomain(c.domains[i..], m) case None => None case Some(k) => Some(k + i)
    {
      assert c.domains[i..][1..] == c.domains[i + 1..];
      if m >= c.domains[i].firstMaster && m <= c.domains[i].lastMaster {
        msiDomain := U8(i);
        hwIrq := U8(c.domains[i].firstHwIrq + (m - c.domains[i].firstMaster));
        break;
      }
      i := i + 1;
    }
    if i == |c.domains| {
      return ENoEnt;
    }
    if !ready[msiDomain] {
      return ENoDev;
    }
    var virq := if (msiDomain, hwIrq) in virqs then virqs[(msiDomain, hwIrq)] else 0;
    if virq < 0 {
      return Err(virq);
    }
    if virq == 0 {
      return ENoDev;
    }
    return Ok(virq);
  }

  // ----- Is the decoding one to one? -----

  lemma {:induction false} FirstDomainIsFirst(ds: seq<Domain>, m: int)
    ensures match FirstDomain(ds, m)
            case None => forall j :: 0 <= j < |ds| ==> !Covers(ds[j], m)
            case Some(i) => i < |ds| && Covers(ds[i], m) && forall j :: 0 <= j < i ==> !Covers(ds[j], m)
  {
    if ds != [] && !Covers(ds[0], m) {
      FirstDomainIsFirst(ds[1..], m);
      assert forall j :: 1 <= j < |ds| ==> ds[j] == ds[1..][j - 1];
    }
  }

  /** The m-th register window. */
  predicate InWindow(cfg: IrqCfg, m: nat, offset: nat) {
    && cfg.channelSize > 0
    && cfg.csrBase + m * cfg.channelSize <= offset < cfg.csrBase + (m + 1) * cfg.channelSize
  }

  /** An offset in the m-th window has the interrupt that the first domain from first to
      last master around m gives it, counted from the domain's first interrupt; and none
      if there is no such domain. Below the first window there is none either. */
  lemma DecodeIs(cfg: IrqCfg, m: nat, offset: nat)
    ensures offset < cfg.csrBase || cfg.channelSize == 0 ==> Decode(cfg, offset) == NoLine
    ensures InWindow(cfg, m, offset) ==>
              match Decode(cfg, offset)
              case NoLine => NoneCovers(cfg.domains, |cfg.domains|, m)
              case Line(i, hwIrq) =>
                i < |cfg.domains| && NoneCovers(cfg.domains, i, m)
                && cfg.domains[i].firstMaster <= m <= cfg.domains[i].lastMaster
                && hwIrq == (cfg.domains[i].firstHwIrq + m - cfg.domains[i].firstMaster) % 256
  {
    if InWindow(cfg, m, offset) {
      QuotientIs(offset - cfg.csrBase, cfg.channelSize, m);
      FirstDomainIsFirst(cfg.domains, m);
    }
  }

  predicate NoneCovers(ds: seq<Domain>, n: nat, m: int) {
    n <= |ds| && forall j :: 0 <= j < n ==> m < ds[j].firstMaster || m > ds[j].lastMaster
  }

  lemma QuotientIs(x: int, d: nat, q: nat)
    requires d > 0 && q * d <= x < (q + 1) * d
    ensures x / d == q
  {
    assert (q + 1) * d == q * d + d;
    var k := x / d;
    assert x == k * d + x % d;
    if k > q {
      Steps(d, q + 1, k);
    } else if k < q {
      Steps(d, k + 1, q);
    }
  }

  lemma Steps(d: nat, a: int, b: int)
    requires a <= b
    ensures a * d <= b * d && (a - 1) * d == a * d - d
  {
  }

  /** Two offsets in the same window have the same interrupt; in different windows they
      share one exactly if they are in the same domain and a multiple of 256 masters
      apart, since the interrupt number is cut to 8 bits. */
  lemma SameLineIff(cfg: IrqCfg, a: nat, b: nat)
    requires Decode(cfg, a).Line? && Decode(cfg, b).Line?
    ensures Decode(cfg, a) == Decode(cfg, b) <==>
            && FirstDomain(cfg.domains, MasterIndex(cfg, a)) == FirstDomain(cfg.domains, MasterIndex(cfg, b))
            && (MasterIndex(cfg, a) - MasterIndex(cfg, b)) % 256 == 0
  {
    var m, n := MasterIndex(cfg, a), MasterIndex(cfg, b);
    FirstDomainIsFirst(cfg.domains, m);
    FirstDomainIsFirst(cfg.domains, n);
    var i := FirstDomain(cfg.domains, m).value;
    var d := cfg.domains[i];
    CongruentIff(d.firstHwIrq + (m - d.firstMaster), d.firstHwIrq + (n - d.firstMaster));
  }

  lemma CongruentIff(x: int, y: int)
    ensures U8(x) == U8(y) <==> (x - y) % 256 == 0
  {
  }

  /** Every interrupt of the domain is a bit of its 32-bit status register. */
  predicate Fits(d: Domain) {
    d.firstHwIrq + (d.lastMaster - d.firstMaster) < 32
  }

  /** A domain's masters all get their own interrupt number, not cut short and within
      the status register, exactly if the last one's number is below 32. */
  lemma FitsIff(d: Domain)
    requires d.firstMaster <= d.lastMaster
    ensures Fits(d) <==>
            forall m :: Covers(d, m) ==>
              HwIrq(d, m) == d.firstHwIrq + (m - d.firstMaster) && HwIrq(d, m) < 32
  {
    assert Covers(d, d.lastMaster);
  }

  /** With such domains the interrupt identifies the controller's window: controllers
      share an interrupt line if and only if their offsets are in the same window. */
  lemma LineIdentifiesWindow(cfg: IrqCfg, a: nat, b: nat)
    requires forall i :: 0 <= i < |cfg.domains| ==> Fits(cfg.domains[i])
    requires Decode(cfg, a).Line? && Decode(cfg, b).Line?
    ensures Decode(cfg, a) == Decode(cfg, b) <==> MasterIndex(cfg, a) == MasterIndex(cfg, b)
    ensures Decode(cfg, a).hwIrq < 32
  {
    var m, n := MasterIndex(cfg, a), MasterIndex(cfg, b);
    FirstDomainIsFirst(cfg.domains, m);
    FirstDomainIsFirst(cfg.domains, n);
    SameLineIff(cfg, a, b);
    var d := cfg.domains[FirstDomain(cfg.domains, m).value];
    FitsIff(d);
    assert Covers(d, m);
  }

  /** Domains with disjoint master ranges: the decoding does not depend on their order. */
  lemma DisjointDomainsDecode(cfg: IrqCfg, i: nat, offset: nat)
    requires i < |cfg.domains| && offset >= cfg.csrBase && cfg.channelSize > 0
    requires forall j, m :: 0 <= j < |cfg.domains| && j != i && Covers(cfg.domains[j], m) ==>
               !Covers(cfg.domains[i], m)
    requires Covers(cfg.domains[i], MasterIndex(cfg, offset))
    ensures Decode(cfg, offset) == Line(i, HwIrq(cfg.domains[i], MasterIndex(cfg, offset)))
  {
    FirstDomainIsFirst(cfg.domains, MasterIndex(cfg, offset));
  }

  // ----- configure_mux_support -----

  /** struct mux_config */
  datatype MuxConfig = MuxConfig(logicalMaster: int, numChannels: int, regOffset: nat)

  /** The fields it sets; key is mux_pdata.logical_master, which has 8 bits. */
  datatype MuxSupport = NoMux | HasMux(numChannels: int, regOffset: nat, key: nat)

  predicate Aligned(offset: nat) {
    offset >= BLOCK_BASE && (offset - BLOCK_BASE) % MASTER_STRIDE == 0
  }

  function LogicalMaster(offset: nat): int {
    (offset - BLOCK_BASE) / MASTER_STRIDE
  }

  /** table: the platform's mux table; None if the platform is unknown or has none */
  method ConfigureMuxSupport(offset: nat, table: Option<seq<MuxConfig>>) returns (r: MuxSupport)
    ensures r.HasMux? <==> offset >= 0x40000 && (offset - 0x40000) % 0x200 == 0 && table.Some?
                           && exists c :: c in table.value && c.logicalMaster == (offset - 0x40000) / 0x200
    ensures r.HasMux? ==>
              && r.key == U8((offset - 0x40000) / 0x200)
              && exists j :: 0 <= j < |table.value| && table.value[j].logicalMaster == (offset - 0x40000) / 0x200
                             && r.numChannels == table.value[j].numChannels
                             && r.regOffset == table.value[j].regOffset
                             && forall k :: 0 <= k < j ==> table.value[k].logicalMaster != (offset - 0x40000) / 0x200
  {
    if offset < BLOCK_BASE || (offset - BLOCK_BASE) % MASTER_STRIDE != 0 {
      return NoMux;
    }
    var logicalMaster := (offset - BLOCK_BASE) / MASTER_STRIDE;
    if table.None? {
      return NoMux;
    }
    var cfgs := table.value;
    var j := 0;
    while j < |cfgs|
      invariant 0 <= j <= |cfgs|
      invariant forall k :: 0 <= k < j ==> cfgs[k].logicalMaster != logicalMaster
    {
      if cfgs[j].logicalMaster == logicalMaster {
        return HasMux(cfgs[j].numChannels, cfgs[j].regOffset, U8(logicalMaster));
      }
      j := j + 1;
    }
    return NoMux;
  }

  /** Two aligned controllers of one FPGA get the same mux key exactly if they are a
      multiple of 256 masters apart; so never in a block of 256. */
  lemma SameKeyIff(a: nat, b: nat)
    requires Aligned(a) && Aligned(b)
    ensures U8(LogicalMaster(a)) == U8(LogicalMaster(b)) <==> (a - b) % (256 * 0x200) == 0
    ensures a < 0x40000 + 256 * 0x200 && b < 0x40000 + 256 * 0x200 ==>
              (U8(LogicalMaster(a)) == U8(LogicalMaster(b)) <==> a == b)
  {
    var m, n := LogicalMaster(a), LogicalMaster(b);
    assert a == 0x40000 + 0x200 * m && b == 0x40000 + 0x200 * n;
    CongruentIff(m, n);
    var k := m - n;
    assert a - b == 512 * k;
    ScaledModulus(k);
  }

  lemma ScaledModulus(k: int)
    ensures (512 * k) % 131072 == 0 <==> k % 256 == 0
  {
    var q, r := k / 256, k % 256;
    assert 512 * k == 131072 * q + 512 * r;
  }

  /** The two decodings agree on aligned offsets; an unaligned one still gets the
      interrupt of the window it falls in, but never a mux. */
  lemma DecodingsAgree(cfg: IrqCfg, offset: nat)
    requires cfg.csrBase == 0x40000 && cfg.channelSize == 0x200 && offset >= 0x40000
    ensures Aligned(offset) ==> MasterIndex(cfg, offset) == LogicalMaster(offset)
    ensures var start := 0x40000 + 0x200 * MasterIndex(cfg, offset);
            && Aligned(start) && Decode(cfg, offset) == Decode(cfg, start)
            && (Aligned(offset) <==> offset == start)
  {
    var m := MasterIndex(cfg, offset);
    var start := 0x40000 + 0x200 * m;
    assert (start - 0x40000) / 0x200 == m;
  }
}
