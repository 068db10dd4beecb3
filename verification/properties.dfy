/** Properties that relate several calls of the driver: the singleton handle,
    idempotence, the USB round trip, the PLL6 rate the SD/MMC clocks rely on,
    and the divider the driver picks at the three standard SD clock rates. */
module ClkProperties {
  import opened Bits
  import opened Registers
  import opened CcmLayout
  import opened ClockDivider
  import opened A10Clk

  // ---------------------------------------------------------------- attach

  /** Once a controller is attached, every later attach fails and the
      handle still names the first controller. */
  lemma SecondAttachFails(c: Ccm, first: nat, second: nat, windowOk: bool)
    requires Attach(c, first, true).err == Ok
    ensures var c1 := Attach(c, first, true).ccm;
      && c1.sc == Some(Softc(first))
      && Attach(c1, second, windowOk) == Reply(Enxio, c1)
  {}

  // ---------------------------------------------------------------- USB and EMAC

  /** Activating USB a second time writes the same values back. */
  lemma UsbActivateIdempotent(L: Layout, c: Ccm)
    requires Valid(L) && Attached(c) && Mapped(L, c.bus.regs)
    ensures var c1 := UsbActivate(L, c).ccm;
      UsbActivate(L, c1).ccm.bus.regs == c1.bus.regs
  {
    var (G, U) := (L.ahbGating0, L.usbClk);
    var c1 := UsbActivate(L, c).ccm;
    var c2 := UsbActivate(L, c1).ccm;
    SetTwice(c.bus.regs[G], c1.bus.regs[G], c2.bus.regs[G], UsbGates(L));
    SetTwice(c.bus.regs[U], c1.bus.regs[U], c2.bus.regs[U], UsbClkBits(L));
    SameRegs(c1.bus.regs, c2.bus.regs, c1.bus.regs, {G, U});
  }

  /** Deactivating USB after activating it leaves the USB gates and USB_CLK
      bits clear and every other bit as it was before the activation; when
      they were clear to begin with, the registers are back where they were. */
  lemma UsbDeactivateUndoesActivate(L: Layout, c: Ccm)
    requires Valid(L) && Attached(c) && Mapped(L, c.bus.regs)
    ensures var c2 := UsbDeactivate(L, UsbActivate(L, c).ccm).ccm;
      var (G, U) := (L.ahbGating0, L.usbClk);
      && ClearsExactly(c.bus.regs[G], c2.bus.regs[G], UsbGates(L))
      && ClearsExactly(c.bus.regs[U], c2.bus.regs[U], UsbClkBits(L))
      && (c.bus.regs[G] * UsbGates(L) == {} && c.bus.regs[U] * UsbClkBits(L) == {} ==>
            c2.bus.regs == c.bus.regs)
  {
    var (G, U) := (L.ahbGating0, L.usbClk);
    var c1 := UsbActivate(L, c).ccm;
    var c2 := UsbDeactivate(L, c1).ccm;
    SetThenClear(c.bus.regs[G], c1.bus.regs[G], c2.bus.regs[G], UsbGates(L));
    SetThenClear(c.bus.regs[U], c1.bus.regs[U], c2.bus.regs[U], UsbClkBits(L));
    if c.bus.regs[G] * UsbGates(L) == {} && c.bus.regs[U] * UsbClkBits(L) == {} {
      ClearWhenClear(c.bus.regs[G], c2.bus.regs[G], UsbGates(L));
      ClearWhenClear(c.bus.regs[U], c2.bus.regs[U], UsbClkBits(L));
      SameRegs(c.bus.regs, c2.bus.regs, c.bus.regs, {G, U});
    }
  }

  /** Activating EMAC a second time writes the same value back. */
  lemma EmacActivateIdempotent(L: Layout, c: Ccm)
    requires Valid(L) && Attached(c) && Mapped(L, c.bus.regs)
    ensures var c1 := EmacActivate(L, c).ccm;
      EmacActivate(L, c1).ccm.bus.regs == c1.bus.regs
  {
    var G := L.ahbGating0;
    var c1 := EmacActivate(L, c).ccm;
    var c2 := EmacActivate(L, c1).ccm;
    SetTwice(c.bus.regs[G], c1.bus.regs[G], c2.bus.regs[G], Mask(L.gateEmac));
    SameRegs(c1.bus.regs, c2.bus.regs, c1.bus.regs, {G});
  }

  // ---------------------------------------------------------------- PLL6

  /** Configuring PLL6 a second time changes nothing. */
  lemma Pll6ConfigIdempotent(L: Layout, v: Word)
    requires Valid(L)
    ensures Pll6Config(L, Pll6Config(L, v)) == Pll6Config(L, v)
  {
    var w := Pll6Config(L, v);
    var (S, E) := (Mask(L.pll6SataClkEn), Mask(L.pllEnable));
    ConstantsFit(L);
    PlaceInMask(25, L.factorN);
    ApartMasks(L.pllBypass, L.pll6SataClkEn);
    ApartMasks(L.pllBypass, L.pllEnable);
    ApartMasks(L.pll6SataClkEn, L.factorK);
    ApartMasks(L.pll6SataClkEn, L.factorM);
    ApartMasks(L.pll6SataClkEn, L.factorN);
    ApartMasks(L.pllEnable, L.factorK);
    ApartMasks(L.pllEnable, L.factorM);
    ApartMasks(L.pllEnable, L.factorN);
    forall i
      ensures i in Pll6Config(L, w) <==> i in w
    {
      if i in S {
        assert i !in Mask(L.pllBypass) * S;
      }
      if i in E {
        assert i !in Mask(L.pllBypass) * E;
      }
    }
  }

  /** `a10_clk_pll6_enable` a second time writes the same value back. */
  lemma Pll6EnableIdempotent(L: Layout, b: Bus)
    requires Valid(L) && L.pll6Cfg in b.regs
    ensures Pll6Enable(L, Pll6Enable(L, b)).regs == Pll6Enable(L, b).regs
  {
    Pll6ConfigIdempotent(L, b.regs[L.pll6Cfg]);
  }

  /** After `a10_clk_mmc_activate`, `a10_clk_pll6_get_rate` reports 300 MHz. */
  lemma MmcActivateRate(L: Layout, c: Ccm, devid: int)
    requires Valid(L) && Attached(c) && Mapped(L, c.bus.regs)
    requires devid >= 0 && ShiftKeeps(Mask(L.gateSdmmc0), devid)
    ensures Pll6GetRate(L, MmcActivate(L, c, devid).ccm.bus).hz == 300_000_000
  {
    assert RateOf(25, 0) == 300_000_000;
  }

  /** Activating the same SD/MMC controller a second time writes the same
      values back. */
  lemma MmcActivateIdempotent(L: Layout, c: Ccm, devid: int)
    requires Valid(L) && Attached(c) && Mapped(L, c.bus.regs)
    requires devid >= 0 && ShiftKeeps(Mask(L.gateSdmmc0), devid)
    ensures var c1 := MmcActivate(L, c, devid).ccm;
      MmcActivate(L, c1, devid).ccm.bus.regs == c1.bus.regs
  {
    var (P, G) := (L.pll6Cfg, L.ahbGating0);
    var c1 := MmcActivate(L, c, devid).ccm;
    var c2 := MmcActivate(L, c1, devid).ccm;
    var b := Pll6Enable(L, c1.bus);
    Pll6ConfigIdempotent(L, c.bus.regs[P]);
    assert b.regs == c1.bus.regs;
    SetTwice(c.bus.regs[G], c1.bus.regs[G], c2.bus.regs[G], Shl(Mask(L.gateSdmmc0), devid));
    SameRegs(c1.bus.regs, c2.bus.regs, c1.bus.regs, {P, G});
  }

  // ---------------------------------------------------------------- SD/MMC clock

  /** Configuring a serial clock a second time with the same settings
      changes nothing, whether or not `m` fits its field. */
  lemma SclkConfigIdempotent(L: Layout, v: Word, t: Tier, m: nat)
    requires Valid(L) && TierFits(L, t)
    ensures SclkConfig(L, SclkConfig(L, v, t, m), t, m) == SclkConfig(L, v, t, m)
  {
    var w := SclkConfig(L, v, t, m);
    var (u, u') := (SclkFields(L, v, t), SclkFields(L, w, t));
    SclkFieldsPlaced(L, v, t);
    SclkFieldsPlaced(L, w, t);
    forall i
      ensures i in SclkConfig(L, w, t, m) <==> i in w
    {
      if i !in Mask(L.sdSrcSel) && i !in Mask(L.sdPhase) && i !in Mask(L.sdDivN) && i !in Mask(L.sdOphase) {
        SclkFieldsOutside(L, w, t, i);
      } else if i in Mask(L.sdSrcSel) {
        assert i in u <==> i in u';
      } else if i in Mask(L.sdPhase) {
        assert i in u <==> i in u';
      } else if i in Mask(L.sdDivN) {
        assert i in u <==> i in u';
      } else {
        assert i in u <==> i in u';
      }
    }
  }

  /** A frequency the driver accepts, in kHz, and the register it rewrites. */
  predicate Configurable(L: Layout, c: Ccm, devid: int, freq: int) {
    && Valid(L) && IsInt32(freq) && Attached(c) && Mapped(L, c.bus.regs)
    && Khz(freq) != 0 && Khz(freq) <= 50000
    && IsInt32(devid) && IsInt32(devid * 4) && SclkReg(L, devid) in c.bus.regs
  }

  /** `a10_clk_mmc_cfg` a second time with the same arguments writes the
      same value back, provided its register is not PLL6_CFG. */
  lemma MmcCfgIdempotent(L: Layout, c: Ccm, devid: int, freq: int)
    requires Configurable(L, c, devid, freq) && SclkReg(L, devid) != L.pll6Cfg
    ensures var c1 := MmcCfg(L, c, devid, freq).ccm;
      MmcCfg(L, c1, devid, freq).ccm.bus.regs == c1.bus.regs
  {
    var R := SclkReg(L, devid);
    var t := TierOf(Khz(freq)).value;
    var c1 := MmcCfg(L, c, devid, freq).ccm;
    var c2 := MmcCfg(L, c1, devid, freq).ccm;
    var m := MmcDivider(L, c.bus.regs[L.pll6Cfg], freq);
    TiersFit(L, Khz(freq));
    assert c1.bus.regs[L.pll6Cfg] == c.bus.regs[L.pll6Cfg];
    assert c1.bus.regs[R] == SclkConfig(L, c.bus.regs[R], t, m);
    assert c2.bus.regs[R] == SclkConfig(L, c1.bus.regs[R], t, m);
    SclkConfigIdempotent(L, c.bus.regs[R], t, m);
    SameRegs(c1.bus.regs, c2.bus.regs, c1.bus.regs, {R});
  }

  /** 400 kHz, the card-identification rate: the 24 MHz oscillator divided
      by 4 and by 15, so `m` is 14. */
  lemma MmcCfgAt400kHz(L: Layout, c: Ccm, devid: int)
    requires Configurable(L, c, devid, 400_000)
    ensures var r := MmcCfg(L, c, devid, 400_000);
      && r.err == Ok
      && MmcDivider(L, c.bus.regs[L.pll6Cfg], 400_000) == 14
      && (Holds(L.sdDivM, 14) ==>
            SclkHolds(L, r.ccm.bus.regs[SclkReg(L, devid)], Tier(Osc24M, 0, 0, 2), 14))
  {
    KhzAt(400_000, 400);
    DividerAt400kHz();
  }

  /** 25 MHz after activation: PLL6's 300 MHz divided by 4 and by 3, so `m`
      is 2. */
  lemma MmcCfgAt25MHz(L: Layout, c: Ccm, devid: int)
    requires Configurable(L, c, devid, 25_000_000)
    requires devid >= 0 && ShiftKeeps(Mask(L.gateSdmmc0), devid)
    ensures var c1 := MmcActivate(L, c, devid).ccm;
      var r := MmcCfg(L, c1, devid, 25_000_000);
      && r.err == Ok
      && MmcDivider(L, c1.bus.regs[L.pll6Cfg], 25_000_000) == 2
      && (Holds(L.sdDivM, 2) ==>
            SclkHolds(L, r.ccm.bus.regs[SclkReg(L, devid)], Tier(Pll6, 5, 0, 2), 2))
  {
    var c1 := MmcActivate(L, c, devid).ccm;
    MmcActivateRate(L, c, devid);
    assert PllRate(L, c1.bus.regs[L.pll6Cfg]) == 300_000_000;
    KhzAt(25_000_000, 25000);
    DividerAt25MHz();
  }

  /** 50 MHz after activation: PLL6's 300 MHz divided by 1 and by 6, so `m`
      is 5. */
  lemma MmcCfgAt50MHz(L: Layout, c: Ccm, devid: int)
    requires Configurable(L, c, devid, 50_000_000)
    requires devid >= 0 && ShiftKeeps(Mask(L.gateSdmmc0), devid)
    ensures var c1 := MmcActivate(L, c, devid).ccm;
      var r := MmcCfg(L, c1, devid, 50_000_000);
      && r.err == Ok
      && MmcDivider(L, c1.bus.regs[L.pll6Cfg], 50_000_000) == 5
      && (Holds(L.sdDivM, 5) ==>
            SclkHolds(L, r.ccm.bus.regs[SclkReg(L, devid)], Tier(Pll6, 5, 3, 0), 5))
  {
    var c1 := MmcActivate(L, c, devid).ccm;
    MmcActivateRate(L, c, devid);
    assert PllRate(L, c1.bus.regs[L.pll6Cfg]) == 300_000_000;
    KhzAt(50_000_000, 50000);
    DividerAt50MHz();
  }

  /** `Khz` at an exact multiple of 1000. */
  lemma KhzAt(freq: int, f: int)
    requires 0 <= f && freq == f * 1000
    ensures Khz(freq) == f
  {}

  lemma DividerAt400kHz()
    ensures Divider(24_000, 2, 400) == 14
  {
    assert Pow2(2) == 4;
  }

  lemma DividerAt25MHz()
    ensures Divider(300_000, 2, 25000) == 2
  {
    assert Pow2(2) == 4;
  }

  lemma DividerAt50MHz()
    ensures Divider(300_000, 0, 50000) == 5
  {}

  lemma DividerAt1MHz()
    ensures Divider(300_000, 2, 1000) == 74
  {
    assert Pow2(2) == 4;
  }

  /** 51 MHz is refused and nothing is touched. */
  lemma MmcCfgAbove50MHz(L: Layout, c: Ccm, devid: int)
    requires Valid(L) && Attached(c) && Mapped(L, c.bus.regs)
    ensures MmcCfg(L, c, devid, 51_000_000) == Reply(Einval, c)
  {}

  /** On the example layout, whose M field is 4 bits wide, 1 MHz from a
      configured PLL6 needs `m` = 74, which the field cannot hold: whatever
      the register held before, its M field then reads back 10, the low four
      bits of 74, and bit 6 of 74 lands outside every SD field. */
  lemma MmcDividerOverflowsAt1MHz(p: Word, v: Word)
    requires Pll6Configured(ExampleLayout(), p)
    ensures MmcDivider(ExampleLayout(), p, 1_000_000) == 74
    ensures !Holds(ExampleLayout().sdDivM, 74)
    ensures var w := SclkConfig(ExampleLayout(), v, Tier(Pll6, 5, 0, 2), 74);
      Get(w, ExampleLayout().sdDivM) == 10 && 6 in w && 6 !in SclkBits(ExampleLayout())
  {
    var L := ExampleLayout();
    assert PllRate(L, p) == RateOf(25, 0) == 300_000_000;
    KhzAt(1_000_000, 1000);
    DividerAt1MHz();
    OverflowReadsBack(v);
  }

  /** The M field of the example layout keeps bits 1 and 3 of 74, which
      read as 10. */
  lemma OverflowReadsBack(v: Word)
    ensures var (L, w) := (ExampleLayout(), SclkConfig(ExampleLayout(), v, Tier(Pll6, 5, 0, 2), 74));
      Get(w, L.sdDivM) == 10 && 6 in w && 6 !in SclkBits(L)
  {
    var L := ExampleLayout();
    var w := SclkConfig(L, v, Tier(Pll6, 5, 0, 2), 74);
    var (M, E) := (Mask(L.sdDivM), Mask(L.pllEnable));
    assert Holds(L.sdDivM, 10) by { assert Pow2(4) == 16; }
    LowBitsOf74();
    ApartMasks(L.sdDivM, L.pllEnable);
    forall i | i in M
      ensures i in w <==> i in FromNat(74)
    {
      assert i !in E * M;
    }
    assert w * M == FromNat(74) * M;
    FromNatInMask(10, L.sdDivM);
    GetPlaced(w, L.sdDivM, 10);
    SixOutside();
  }

  /** Of 74's bits, those below 4 make 10; bit 6 is set. */
  lemma LowBitsOf74()
    ensures FromNat(74) * Mask(Field(0, 4)) == FromNat(10)
    ensures 6 in FromNat(74)
  {
    MaskMembers(Field(0, 4));
    assert Pow2(4) == 16;
    forall i | i in FromNat(10)
      ensures i < 4
    {
      if i >= 4 {
        NoBitAbove(10, 4, i);
      }
    }
    assert Bit(74, 6);
  }

  /** Bit 6 lies outside every field of the example serial-clock register. */
  lemma SixOutside()
    ensures 6 !in SclkBits(ExampleLayout())
  {
    var L := ExampleLayout();
    MaskMembers(L.sdSrcSel);
    MaskMembers(L.sdPhase);
    MaskMembers(L.sdDivN);
    MaskMembers(L.sdOphase);
    MaskMembers(L.sdDivM);
    MaskMembers(L.pllEnable);
  }
}
