/** The A10 clock-control driver (`a10_clk.c`): the singleton controller
    handle, the USB, EMAC and SD/MMC clock-enable entry points, and the PLL6
    configuration they share. Every entry point is a pure function from the
    driver's state to an error code and the next state. */
module A10Clk {
  import opened Bits
  import opened Registers
  import opened CcmLayout
  import opened ClockDivider

  datatype Option<T> = None | Some(value: T)

  /** The per-device softc the driver publishes once it has its register
      window; the window itself is the bus. */
  datatype Softc = Softc(dev: nat)

  /** The driver's global state: the handle `a10_ccm_sc` and the registers. */
  datatype Ccm = Ccm(sc: Option<Softc>, bus: Bus)

  /** The error numbers the driver returns. */
  datatype Errno = Ok | Enxio | Einval

  datatype Reply = Reply(err: Errno, ccm: Ccm)

  /** A value read from the registers, and the bus after the read. */
  datatype Sampled = Sampled(hz: nat, bus: Bus)

  predicate Attached(c: Ccm) {
    c.sc.Some?
  }

  /** The registers the driver addresses by name are inside the window. */
  predicate Mapped(L: Layout, regs: map<int, Word>) {
    L.ahbGating0 in regs && L.usbClk in regs && L.pll6Cfg in regs
  }

  // ---------------------------------------------------------------- attach

  /** `a10_ccm_attach`: refuses when a controller is already attached or when
      the register window cannot be allocated (`windowOk` is the outcome of
      `bus_alloc_resource_any`); otherwise publishes the device's softc. */
  function Attach(c: Ccm, dev: nat, windowOk: bool): (r: Reply)
    ensures r.ccm.bus == c.bus
    ensures r.err == Ok <==> !Attached(c) && windowOk
    ensures r.err != Ok ==> r == Reply(Enxio, c)
    ensures r.err == Ok ==> r.ccm.sc == Some(Softc(dev))
  {
    if c.sc.Some? then Reply(Enxio, c)
    else if !windowOk then Reply(Enxio, c)
    else Reply(Ok, c.(sc := Some(Softc(dev))))
  }

  // ---------------------------------------------------------------- USB and EMAC

  /** `a10_clk_usb_activate`: open the three USB AHB gates, then enable the
      PHY and release the three USB resets. */
  function UsbActivate(L: Layout, c: Ccm): (r: Reply)
    requires Valid(L) && (Attached(c) ==> Mapped(L, c.bus.regs))
    ensures !Attached(c) ==> r == Reply(Enxio, c)
    ensures Attached(c) ==>
      var (G, U) := (L.ahbGating0, L.usbClk);
      var (m, m') := (c.bus.regs, r.ccm.bus.regs);
      && r.err == Ok && r.ccm.sc == c.sc
      && OnlyChanged(m, m', {G, U})
      && SetsExactly(m[G], m'[G], UsbGates(L))
      && SetsExactly(m[U], m'[U], UsbClkBits(L))
      && r.ccm.bus.log == c.bus.log + Rmw(G, m'[G]) + Rmw(U, m'[U])
  {
    if c.sc.None? then Reply(Enxio, c)
    else
      var b := SetBits(c.bus, L.ahbGating0, UsbGates(L));
      Reply(Ok, c.(bus := SetBits(b, L.usbClk, UsbClkBits(L))))
  }

  /** `a10_clk_usb_deactivate`: the reverse of `UsbActivate`, in the reverse
      order: PHY and resets first, then the AHB gates. */
  function UsbDeactivate(L: Layout, c: Ccm): (r: Reply)
    requires Valid(L) && (Attached(c) ==> Mapped(L, c.bus.regs))
    ensures !Attached(c) ==> r == Reply(Enxio, c)
    ensures Attached(c) ==>
      var (G, U) := (L.ahbGating0, L.usbClk);
      var (m, m') := (c.bus.regs, r.ccm.bus.regs);
      && r.err == Ok && r.ccm.sc == c.sc
      && OnlyChanged(m, m', {G, U})
      && ClearsExactly(m[U], m'[U], UsbClkBits(L))
      && ClearsExactly(m[G], m'[G], UsbGates(L))
      && r.ccm.bus.log == c.bus.log + Rmw(U, m'[U]) + Rmw(G, m'[G])
  {
    if c.sc.None? then Reply(Enxio, c)
    else
      var b := ClearBits(c.bus, L.usbClk, UsbClkBits(L));
      Reply(Ok, c.(bus := ClearBits(b, L.ahbGating0, UsbGates(L))))
  }

  /** `a10_clk_emac_activate`: open the EMAC AHB gate. */
  function EmacActivate(L: Layout, c: Ccm): (r: Reply)
    requires Valid(L) && (Attached(c) ==> Mapped(L, c.bus.regs))
    ensures !Attached(c) ==> r == Reply(Enxio, c)
    ensures Attached(c) ==>
      var G := L.ahbGating0;
      var (m, m') := (c.bus.regs, r.ccm.bus.regs);
      && r.err == Ok && r.ccm.sc == c.sc
      && OnlyChanged(m, m', {G})
      && SetsExactly(m[G], m'[G], Mask(L.gateEmac))
      && r.ccm.bus.log == c.bus.log + Rmw(G, m'[G])
  {
    if c.sc.None? then Reply(Enxio, c)
    else
      Reply(Ok, c.(bus := SetBits(c.bus, L.ahbGating0, Mask(L.gateEmac))))
  }

  // ---------------------------------------------------------------- PLL6

  /** The new PLL6_CFG value `a10_clk_pll6_enable` computes from the old one. */
  function Pll6Config(L: Layout, v: Word): Word
    requires FieldsValid(L)
  {
    var cleared := (v - Mask(L.pllBypass)) - (Mask(L.factorK) + Mask(L.factorM) + Mask(L.factorN));
    cleared + Place(25, L.factorN) + Mask(L.pll6SataClkEn) + Mask(L.pllEnable)
  }

  /** PLL6 runs unbypassed with N = 25, K = M = 0 and both outputs enabled. */
  predicate Pll6Configured(L: Layout, w: Word)
    requires FieldsValid(L)
  {
    && w * Mask(L.pllBypass) == {}
    && Get(w, L.factorK) == 0 && Get(w, L.factorM) == 0 && Get(w, L.factorN) == 25
    && Mask(L.pll6SataClkEn) <= w && Mask(L.pllEnable) <= w
  }

  /** The PLL6 configuration: the register ends up configured, and every bit
      outside the bypass, enables and factor fields keeps its old value. */
  lemma Pll6ConfigSpec(L: Layout, v: Word)
    requires Valid(L)
    ensures Pll6Configured(L, Pll6Config(L, v))
    ensures Pll6Config(L, v) - Pll6Bits(L) == v - Pll6Bits(L)
  {
    ConstantsFit(L);
    var w := Pll6Config(L, v);
    Pll6ConfigBypass(L, v);
    Pll6ConfigK(L, v);
    GetCleared(w, L.factorK);
    Pll6ConfigM(L, v);
    GetCleared(w, L.factorM);
    Pll6ConfigN(L, v);
    GetPlaced(w, L.factorN, 25);
    PlaceInMask(25, L.factorN);
  }

  lemma Pll6ConfigBypass(L: Layout, v: Word)
    requires Valid(L)
    ensures Pll6Config(L, v) * Mask(L.pllBypass) == {}
  {
    ConstantsFit(L);
    PlaceInMask(25, L.factorN);
    ApartMasks(L.pllBypass, L.factorN);
    ApartMasks(L.pllBypass, L.pll6SataClkEn);
    ApartMasks(L.pllBypass, L.pllEnable);
  }

  lemma Pll6ConfigK(L: Layout, v: Word)
    requires Valid(L)
    ensures Pll6Config(L, v) * Mask(L.factorK) == {}
  {
    ConstantsFit(L);
    PlaceInMask(25, L.factorN);
    ApartMasks(L.factorK, L.factorN);
    ApartMasks(L.pll6SataClkEn, L.factorK);
    ApartMasks(L.pllEnable, L.factorK);
  }

  lemma Pll6ConfigM(L: Layout, v: Word)
    requires Valid(L)
    ensures Pll6Config(L, v) * Mask(L.factorM) == {}
  {
    ConstantsFit(L);
    PlaceInMask(25, L.factorN);
    ApartMasks(L.factorM, L.factorN);
    ApartMasks(L.pll6SataClkEn, L.factorM);
    ApartMasks(L.pllEnable, L.factorM);
  }

  lemma Pll6ConfigN(L: Layout, v: Word)
    requires Valid(L)
    ensures Pll6Config(L, v) * Mask(L.factorN) == Place(25, L.factorN)
  {
    ConstantsFit(L);
    PlaceInMask(25, L.factorN);
    ApartMasks(L.pll6SataClkEn, L.factorN);
    ApartMasks(L.pllEnable, L.factorN);
  }

  /** `a10_clk_pll6_enable`: read PLL6_CFG and write back the configured value.
      The caller has already checked that a controller is attached. */
  function Pll6Enable(L: Layout, b: Bus): (r: Bus)
    requires Valid(L) && L.pll6Cfg in b.regs
    ensures OnlyChanged(b.regs, r.regs, {L.pll6Cfg})
    ensures Pll6Configured(L, r.regs[L.pll6Cfg])
    ensures r.regs[L.pll6Cfg] - Pll6Bits(L) == b.regs[L.pll6Cfg] - Pll6Bits(L)
    ensures r.log == b.log + Rmw(L.pll6Cfg, r.regs[L.pll6Cfg])
  {
    var p := Read(b, L.pll6Cfg);
    Pll6ConfigSpec(L, p.value);
    Write(p.bus, L.pll6Cfg, Pll6Config(L, p.value))
  }

  /** The rate of a PLL whose configuration has factors `n` and `kf`. */
  function PllRate(L: Layout, v: Word): (hz: nat)
    requires FieldsValid(L)
    ensures hz < U32
  {
    RateOf(Get(v, L.factorN), Get(v, L.factorK))
  }

  /** `(CCM_CLK_REF_FREQ * n * k) / 2` in `unsigned int` arithmetic, with `n`
      the N factor and `k` the K factor plus one. */
  function RateOf(n: nat, kf: nat): (hz: nat)
    ensures hz < U32
  {
    MulU32(MulU32(RefFreq, n % U32), (kf + 1) % U32) / 2
  }

  /** While the product fits in 32 bits, the rate is 24 MHz * n * k / 2. */
  lemma RateOfExact(n: nat, kf: nat)
    requires RefFreq * n * (kf + 1) < U32
    ensures RateOf(n, kf) == RefFreq * n * (kf + 1) / 2
  {
    var a, k := RefFreq * n, kf + 1;
    if n > 0 {
      FactorBelow(a, k);
      FactorBelow(n, RefFreq);
      MulCommutes(k, a);
      FactorBelow(k, a);
      RateOfSmall(n, kf);
    }
  }

  lemma RateOfSmall(n: nat, kf: nat)
    requires n < U32 && kf + 1 < U32 && RefFreq * n < U32 && RefFreq * n * (kf + 1) < U32
    ensures RateOf(n, kf) == RefFreq * n * (kf + 1) / 2
  {
    assert MulU32(RefFreq, n % U32) == RefFreq * n;
  }

  /** `a10_clk_pll6_get_rate`: the PLL6 output rate from one read of PLL6_CFG. */
  function Pll6GetRate(L: Layout, b: Bus): (r: Sampled)
    requires FieldsValid(L) && L.pll6Cfg in b.regs
    ensures r.bus.regs == b.regs
    ensures r.bus.log == b.log + [Load(L.pll6Cfg)]
    ensures r.hz == PllRate(L, b.regs[L.pll6Cfg])
  {
    var p := Read(b, L.pll6Cfg);
    Sampled(PllRate(L, p.value), p.bus)
  }

  /** Once PLL6 is configured it runs at 300 MHz. */
  lemma RateAfterEnable(L: Layout, v: Word)
    requires Valid(L)
    ensures PllRate(L, Pll6Config(L, v)) == 300_000_000
  {
    Pll6ConfigSpec(L, v);
    assert RateOf(25, 0) == 300_000_000;
  }

  // ---------------------------------------------------------------- SD/MMC

  /** `a10_clk_mmc_activate`: configure PLL6, then open the AHB gate of SD/MMC
      controller `devid`, which sits `devid` places above controller 0's. The
      caller must keep that gate inside the register. */
  function MmcActivate(L: Layout, c: Ccm, devid: int): (r: Reply)
    requires Valid(L)
    requires Attached(c) ==> Mapped(L, c.bus.regs) && devid >= 0 && ShiftKeeps(Mask(L.gateSdmmc0), devid)
    ensures !Attached(c) ==> r == Reply(Enxio, c)
    ensures Attached(c) ==>
      var (P, G) := (L.pll6Cfg, L.ahbGating0);
      var (m, m') := (c.bus.regs, r.ccm.bus.regs);
      && r.err == Ok && r.ccm.sc == c.sc
      && OnlyChanged(m, m', {P, G})
      && Pll6Configured(L, m'[P]) && m'[P] - Pll6Bits(L) == m[P] - Pll6Bits(L)
      && SetsExactly(m[G], m'[G], Shl(Mask(L.gateSdmmc0), devid))
      && r.ccm.bus.log == c.bus.log + Rmw(P, m'[P]) + Rmw(G, m'[G])
  {
    if c.sc.None? then Reply(Enxio, c)
    else
      var b := Pll6Enable(L, c.bus);
      Reply(Ok, c.(bus := SetBits(b, L.ahbGating0, Shl(Mask(L.gateSdmmc0), devid))))
  }

  /** The two clock sources of an SD/MMC serial clock. */
  datatype Source = Osc24M | Pll6

  /** The settings `a10_clk_mmc_cfg` picks for one frequency band: the source,
      the sample and output phase, and the pre-divider exponent N. */
  datatype Tier = Tier(source: Source, phase: nat, ophase: nat, n: nat)

  /** The band table, for a frequency in kHz: up to 400 kHz from the 24 MHz
      oscillator, up to 25 MHz and up to 50 MHz from PLL6, nothing above. */
  function TierOf(f: int): (t: Option<Tier>)
    ensures t.None? <==> f > 50000
    ensures t.Some? ==> (t.value.source == Osc24M <==> f <= 400)
    ensures t.Some? && f <= 400 ==> t.value == Tier(Osc24M, 0, 0, 2)
    ensures t.Some? && 400 < f <= 25000 ==> t.value == Tier(Pll6, 5, 0, 2)
    ensures t.Some? && 25000 < f ==> t.value == Tier(Pll6, 5, 3, 0)
  {
    if f <= 400 then Some(Tier(Osc24M, 0, 0, 2))
    else if f <= 25000 then Some(Tier(Pll6, 5, 0, 2))
    else if f <= 50000 then Some(Tier(Pll6, 5, 3, 0))
    else None
  }

  /** The source-select code of a source. */
  function SourceCode(L: Layout, s: Source): nat {
    match s
    case Osc24M => L.srcOsc24M
    case Pll6 => L.srcPll6
  }

  /** Every setting of the tier fits its field. */
  predicate TierFits(L: Layout, t: Tier)
    requires FieldsValid(L)
  {
    && Holds(L.sdSrcSel, SourceCode(L, t.source)) && Holds(L.sdPhase, t.phase)
    && Holds(L.sdDivN, t.n) && Holds(L.sdOphase, t.ophase)
  }

  lemma TiersFit(L: Layout, f: int)
    requires Valid(L) && TierOf(f).Some?
    ensures TierFits(L, TierOf(f).value)
  {
    ConstantsFit(L);
  }

  /** The offset of SD/MMC controller `devid`'s serial-clock register. */
  function SclkReg(L: Layout, devid: int): int {
    L.mmc0SclkCfg + devid * 4
  }

  /** The source, phase, N and output-phase writes of `a10_clk_mmc_cfg`,
      each replacing its field. */
  function SclkFields(L: Layout, v: Word, t: Tier): Word
    requires FieldsValid(L)
  {
    var v1 := Put(v, L.sdSrcSel, SourceCode(L, t.source));
    var v2 := Put(v1, L.sdPhase, t.phase);
    var v3 := Put(v2, L.sdDivN, t.n);
    Put(v3, L.sdOphase, t.ophase)
  }

  /** The new serial-clock register value `a10_clk_mmc_cfg` computes: the four
      field writes, then the M field is cleared and `m` is ORed in unmasked,
      and the enable bit is set. */
  function SclkConfig(L: Layout, v: Word, t: Tier, m: nat): Word
    requires FieldsValid(L)
  {
    ((SclkFields(L, v, t) - Mask(L.sdDivM)) + FromNat(m)) + Mask(L.pllEnable)
  }

  /** Every field decodes to the tier's setting and to `m`. */
  predicate SclkHolds(L: Layout, w: Word, t: Tier, m: nat)
    requires FieldsValid(L)
  {
    && Get(w, L.sdSrcSel) == SourceCode(L, t.source)
    && Get(w, L.sdPhase) == t.phase && Get(w, L.sdOphase) == t.ophase
    && Get(w, L.sdDivN) == t.n && Get(w, L.sdDivM) == m
  }

  /** What a serial-clock register that held `v` holds once configured for
      tier `t` and divider `m`: the enable bit and the bits of `m` are set and
      every bit outside the written fields and `m` is kept; when `m` fits the
      M field, every field decodes to its setting and every other bit is kept. */
  predicate SclkWritten(L: Layout, v: Word, w: Word, t: Tier, m: nat)
    requires FieldsValid(L)
  {
    && Mask(L.pllEnable) <= w && FromNat(m) <= w
    && w - (SclkBits(L) + FromNat(m)) == v - (SclkBits(L) + FromNat(m))
    && (Holds(L.sdDivM, m) ==> SclkHolds(L, w, t, m) && w - SclkBits(L) == v - SclkBits(L))
  }

  /** Clearing bits `M`, ORing in bits inside `M` and setting bits `E` leaves
      every field `F` disjoint from both as it was. */
  lemma Untouched(u: Word, F: Word, M: Word, x: Word, E: Word)
    requires x <= M && M * F == {} && E * F == {}
    ensures ((u - M) + x + E) * F == u * F
  {
    forall i | i in F
      ensures i in (u - M) + x + E <==> i in u
    {
      assert i !in M * F && i !in E * F;
    }
  }

  /** Each of the four field writes survives the later ones. */
  lemma SclkFieldsPlaced(L: Layout, v: Word, t: Tier)
    requires Valid(L) && TierFits(L, t)
    ensures var u := SclkFields(L, v, t);
      && u * Mask(L.sdSrcSel) == Place(SourceCode(L, t.source), L.sdSrcSel)
      && u * Mask(L.sdPhase) == Place(t.phase, L.sdPhase)
      && u * Mask(L.sdDivN) == Place(t.n, L.sdDivN)
      && u * Mask(L.sdOphase) == Place(t.ophase, L.sdOphase)
  {
    var (S, P, N, O) := (L.sdSrcSel, L.sdPhase, L.sdDivN, L.sdOphase);
    var u1 := Put(v, S, SourceCode(L, t.source));
    var u2 := Put(u1, P, t.phase);
    var u3 := Put(u2, N, t.n);
    PutGet(v, S, SourceCode(L, t.source));
    PutGet(u1, P, t.phase);
    PutGet(u2, N, t.n);
    PutGet(u3, O, t.ophase);
    PutOther(u1, P, t.phase, S);
    PutOther(u2, N, t.n, S);
    PutOther(u3, O, t.ophase, S);
    PutOther(u2, N, t.n, P);
    PutOther(u3, O, t.ophase, P);
    PutOther(u3, O, t.ophase, N);
  }

  /** A bit outside the four fields passes the field writes unchanged. */
  lemma SclkFieldsOutside(L: Layout, v: Word, t: Tier, i: nat)
    requires FieldsValid(L) && TierFits(L, t)
    requires i !in Mask(L.sdSrcSel) && i !in Mask(L.sdPhase)
    requires i !in Mask(L.sdDivN) && i !in Mask(L.sdOphase)
    ensures i in SclkFields(L, v, t) <==> i in v
  {
    var v1 := Put(v, L.sdSrcSel, SourceCode(L, t.source));
    var v2 := Put(v1, L.sdPhase, t.phase);
    var v3 := Put(v2, L.sdDivN, t.n);
    PutOutside(v, L.sdSrcSel, SourceCode(L, t.source), i);
    PutOutside(v1, L.sdPhase, t.phase, i);
    PutOutside(v2, L.sdDivN, t.n, i);
    PutOutside(v3, L.sdOphase, t.ophase, i);
  }

  /** Whatever `m` is, the enable bit and the bits of `m` are set, and every
      other bit outside the written fields keeps its value. */
  lemma SclkConfigOutside(L: Layout, v: Word, t: Tier, m: nat)
    requires FieldsValid(L) && TierFits(L, t)
    ensures var w := SclkConfig(L, v, t, m);
      && Mask(L.pllEnable) <= w && FromNat(m) <= w
      && w - (SclkBits(L) + FromNat(m)) == v - (SclkBits(L) + FromNat(m))
  {
    var w := SclkConfig(L, v, t, m);
    forall i | i !in SclkBits(L) + FromNat(m)
      ensures i in w <==> i in v
    {
      SclkFieldsOutside(L, v, t, i);
    }
  }

  /** When `m` fits the M field, every field decodes to its setting and every
      bit outside the fields and the enable bit keeps its value. */
  lemma SclkConfigFields(L: Layout, v: Word, t: Tier, m: nat)
    requires Valid(L) && TierFits(L, t) && Holds(L.sdDivM, m)
    ensures SclkHolds(L, SclkConfig(L, v, t, m), t, m)
  {
    var u := SclkFields(L, v, t);
    var w := SclkConfig(L, v, t, m);
    var (M, E) := (Mask(L.sdDivM), Mask(L.pllEnable));
    SclkFieldsPlaced(L, v, t);
    FromNatInMask(m, L.sdDivM);
    ApartMasks(L.sdDivM, L.sdSrcSel);
    ApartMasks(L.pllEnable, L.sdSrcSel);
    Untouched(u, Mask(L.sdSrcSel), M, FromNat(m), E);
    GetPlaced(w, L.sdSrcSel, SourceCode(L, t.source));
    ApartMasks(L.sdDivM, L.sdPhase);
    ApartMasks(L.pllEnable, L.sdPhase);
    Untouched(u, Mask(L.sdPhase), M, FromNat(m), E);
    GetPlaced(w, L.sdPhase, t.phase);
    ApartMasks(L.sdDivM, L.sdDivN);
    ApartMasks(L.pllEnable, L.sdDivN);
    Untouched(u, Mask(L.sdDivN), M, FromNat(m), E);
    GetPlaced(w, L.sdDivN, t.n);
    ApartMasks(L.sdDivM, L.sdOphase);
    ApartMasks(L.pllEnable, L.sdOphase);
    Untouched(u, Mask(L.sdOphase), M, FromNat(m), E);
    GetPlaced(w, L.sdOphase, t.ophase);
    ApartMasks(L.sdDivM, L.pllEnable);
    assert w * M == Place(m, L.sdDivM);
    GetPlaced(w, L.sdDivM, m);
  }

  /** When `m` fits the M field, the bits of `m` are inside the written bits. */
  lemma SclkConfigKeeps(L: Layout, v: Word, t: Tier, m: nat)
    requires Valid(L) && TierFits(L, t) && Holds(L.sdDivM, m)
    ensures SclkConfig(L, v, t, m) - SclkBits(L) == v - SclkBits(L)
  {
    SclkConfigOutside(L, v, t, m);
    FromNatInMask(m, L.sdDivM);
    assert SclkBits(L) + FromNat(m) == SclkBits(L);
  }

  /** The serial-clock configuration writes what `SclkWritten` describes. */
  lemma SclkConfigSpec(L: Layout, v: Word, t: Tier, m: nat)
    requires Valid(L) && TierFits(L, t)
    ensures SclkWritten(L, v, SclkConfig(L, v, t, m), t, m)
  {
    SclkConfigOutside(L, v, t, m);
    if Holds(L.sdDivM, m) {
      SclkConfigFields(L, v, t, m);
      SclkConfigKeeps(L, v, t, m);
    }
  }

  /** `pll_freq`: the tier's input clock in kHz, with PLL6_CFG holding `p`. */
  function InputKhz(L: Layout, t: Tier, p: Word): nat
    requires FieldsValid(L)
  {
    match t.source
    case Osc24M => RefFreq / 1000
    case Pll6 => PllRate(L, p) / 1000
  }

  /** The divider `a10_clk_mmc_cfg` computes for `freq` Hz with PLL6_CFG
      holding `p`. */
  function MmcDivider(L: Layout, p: Word, freq: int): nat
    requires FieldsValid(L) && IsInt32(freq)
    requires TierOf(Khz(freq)).Some? && Khz(freq) != 0
  {
    var t := TierOf(Khz(freq)).value;
    Divider(InputKhz(L, t, p), t.n, Khz(freq))
  }

  /** `a10_clk_mmc_cfg`: pick the band for `freq` Hz, compute the divider and
      rewrite controller `devid`'s serial-clock register. Above 50 MHz it
      fails with EINVAL before touching any register. The caller must not
      ask for less than 1 kHz (C's division by zero) and must name a
      controller whose register is inside the window, by a `devid` whose
      `devid * 4` does not overflow an `int`. */
  function MmcCfg(L: Layout, c: Ccm, devid: int, freq: int): (r: Reply)
    requires Valid(L) && IsInt32(freq)
    requires Attached(c) ==> Mapped(L, c.bus.regs)
    requires Attached(c) && Khz(freq) <= 50000 ==>
      Khz(freq) != 0 && IsInt32(devid) && IsInt32(devid * 4) && SclkReg(L, devid) in c.bus.regs
    ensures !Attached(c) ==> r == Reply(Enxio, c)
    ensures Attached(c) ==> (r.err == Einval <==> Khz(freq) > 50000)
    ensures r.err == Einval ==> r.ccm == c
    ensures Attached(c) && Khz(freq) <= 50000 ==>
      var t := TierOf(Khz(freq)).value;
      var R := SclkReg(L, devid);
      var (m, m') := (c.bus.regs, r.ccm.bus.regs);
      && r.err == Ok && r.ccm.sc == c.sc
      && OnlyChanged(m, m', {R})
      && SclkWritten(L, m[R], m'[R], t, MmcDivider(L, m[L.pll6Cfg], freq))
      && r.ccm.bus.log == c.bus.log + (if t.source == Pll6 then [Load(L.pll6Cfg)] else [])
                          + Rmw(R, m'[R])
  {
    if c.sc.None? then Reply(Enxio, c)
    else
      var f := Khz(freq);
      match TierOf(f)
      case None => Reply(Einval, c)
      case Some(t) =>
        var s := if t.source == Pll6 then Pll6GetRate(L, c.bus) else Sampled(RefFreq, c.bus);
        var m := Divider(s.hz / 1000, t.n, f);
        var R := SclkReg(L, devid);
        var x := Read(s.bus, R);
        TiersFit(L, f);
        SclkConfigSpec(L, x.value, t, m);
        Reply(Ok, c.(bus := Write(x.bus, R, SclkConfig(L, x.value, t, m))))
  }
}
