/** The register offsets, bit masks and fields of the A10 clock-control module
    that the driver names. Their values live in the driver's header, which is
    not part of this model, so they are a parameter of every operation and
    `Valid` states all that the model assumes about them. Every mask, the
    one-bit flags included, is a contiguous run of bits: a `Field`. */
module CcmLayout {
  import opened Bits

  /** The reference oscillator, 24 MHz. */
  const RefFreq: nat := 24_000_000

  datatype Layout = Layout(
    // register offsets
    ahbGating0: int,
    usbClk: int,
    pll6Cfg: int,
    mmc0SclkCfg: int,
    // AHB_GATING0 gates
    gateUsb0: Field,
    gateEhci0: Field,
    gateEhci1: Field,
    gateEmac: Field,
    gateSdmmc0: Field,
    // USB_CLK bits
    usbPhy: Field,
    usb0Reset: Field,
    usb1Reset: Field,
    usb2Reset: Field,
    // PLL configuration bits and factor fields
    pllEnable: Field,
    pllBypass: Field,
    pll6SataClkEn: Field,
    factorN: Field,
    factorK: Field,
    factorM: Field,
    // SD/MMC serial-clock register fields and source codes
    sdSrcSel: Field,
    sdPhase: Field,
    sdDivN: Field,
    sdOphase: Field,
    sdDivM: Field,
    srcOsc24M: nat,
    srcPll6: nat
  )

  predicate FieldsValid(L: Layout) {
    && ValidField(L.gateUsb0) && ValidField(L.gateEhci0) && ValidField(L.gateEhci1)
    && ValidField(L.gateEmac) && ValidField(L.gateSdmmc0)
    && ValidField(L.usbPhy) && ValidField(L.usb0Reset) && ValidField(L.usb1Reset)
    && ValidField(L.usb2Reset)
    && ValidField(L.pllEnable) && ValidField(L.pllBypass) && ValidField(L.pll6SataClkEn)
    && ValidField(L.factorN) && ValidField(L.factorK) && ValidField(L.factorM)
    && ValidField(L.sdSrcSel) && ValidField(L.sdPhase) && ValidField(L.sdDivN)
    && ValidField(L.sdOphase) && ValidField(L.sdDivM)
  }

  /** The three AHB gates USB needs. */
  function UsbGates(L: Layout): Word
    requires FieldsValid(L)
  {
    Mask(L.gateUsb0) + Mask(L.gateEhci0) + Mask(L.gateEhci1)
  }

  /** The USB PHY enable and the three USB reset-release bits. */
  function UsbClkBits(L: Layout): Word
    requires FieldsValid(L)
  {
    Mask(L.usbPhy) + Mask(L.usb0Reset) + Mask(L.usb1Reset) + Mask(L.usb2Reset)
  }

  /** Every bit PLL6 configuration writes. */
  function Pll6Bits(L: Layout): Word
    requires FieldsValid(L)
  {
    Mask(L.pllBypass) + Mask(L.factorK) + Mask(L.factorM) + Mask(L.factorN)
      + Mask(L.pll6SataClkEn) + Mask(L.pllEnable)
  }

  /** Every bit the SD/MMC clock configuration writes on purpose. */
  function SclkBits(L: Layout): Word
    requires FieldsValid(L)
  {
    Mask(L.sdSrcSel) + Mask(L.sdPhase) + Mask(L.sdDivN) + Mask(L.sdOphase)
      + Mask(L.sdDivM) + Mask(L.pllEnable)
  }

  /** The registers the driver addresses by name are distinct. */
  predicate RegsDistinct(L: Layout) {
    L.ahbGating0 != L.usbClk && L.ahbGating0 != L.pll6Cfg && L.usbClk != L.pll6Cfg
  }

  /** Field `f` lies wholly below field `g`. */
  predicate Below(f: Field, g: Field) {
    f.shift + f.width <= g.shift
  }

  /** The PLL6 factor fields and flags lie in the header's order, from bit 0
      up: M, K, N, the SATA clock enable, bypass, enable. Ordered fields are
      pairwise `Apart`. */
  predicate Pll6Ordered(L: Layout) {
    && Below(L.factorM, L.factorK) && Below(L.factorK, L.factorN)
    && Below(L.factorN, L.pll6SataClkEn) && Below(L.pll6SataClkEn, L.pllBypass)
    && Below(L.pllBypass, L.pllEnable)
  }

  /** The SD clock fields, and the enable bit the driver sets there, lie in
      the header's order, from bit 0 up: M, output phase, N, phase, source
      select, enable. */
  predicate SclkOrdered(L: Layout) {
    && Below(L.sdDivM, L.sdOphase) && Below(L.sdOphase, L.sdDivN)
    && Below(L.sdDivN, L.sdPhase) && Below(L.sdPhase, L.sdSrcSel)
    && Below(L.sdSrcSel, L.pllEnable)
  }

  /** What the model assumes of the header's constants. */
  predicate Valid(L: Layout) {
    && RegsDistinct(L)
    && FieldsValid(L)
    && Pll6Ordered(L)
    // the N field is wide enough to hold 25
    && L.factorN.width >= 5
    && SclkOrdered(L)
    // the divider M sits at bit 0, since the driver ORs `m` in unshifted
    && L.sdDivM.shift == 0
    // each SD field is wide enough for the values the driver writes into it
    && Holds(L.sdSrcSel, L.srcOsc24M) && Holds(L.sdSrcSel, L.srcPll6)
    && L.sdPhase.width >= 3 && L.sdOphase.width >= 2 && L.sdDivN.width >= 2
  }

  /** The constants the driver writes fit their fields. */
  lemma ConstantsFit(L: Layout)
    requires Valid(L)
    ensures Holds(L.factorN, 25)
    ensures Holds(L.sdPhase, 5) && Holds(L.sdOphase, 3) && Holds(L.sdDivN, 2)
  {
    Pow2Grows(5, L.factorN.width);
    Pow2Grows(3, L.sdPhase.width);
    Pow2Grows(2, L.sdOphase.width);
    Pow2Grows(2, L.sdDivN.width);
  }

  /** A layout meeting every assumption, shaped like the A10's; it shows the
      assumptions are consistent and is not used by the driver model. */
  function ExampleLayout(): Layout {
    Layout(
      0x60, 0xcc, 0x28, 0x88,
      Field(0, 1), Field(1, 1), Field(3, 1), Field(17, 1), Field(8, 1),
      Field(8, 1), Field(0, 1), Field(1, 1), Field(2, 1),
      Field(31, 1), Field(30, 1), Field(14, 1),
      Field(8, 5), Field(4, 2), Field(0, 2),
      Field(24, 2), Field(20, 3), Field(16, 2), Field(8, 3), Field(0, 4),
      0, 1)
  }

  lemma ExampleLayoutValid()
    ensures Valid(ExampleLayout())
  {}
}
