# A10 clock-control driver, modelled in Dafny

This project models the clock-control module (CCM) driver of the Allwinner A10,
`sys/arm/allwinner/a10_clk.c`. The driver attaches one CCM controller, publishes
it through a single global handle, and offers the other drivers a few entry
points:

- open the USB clocks and close them again;
- open the EMAC clock;
- open the clock of an SD/MMC controller, which first configures PLL6;
- set an SD/MMC controller's serial clock to a requested frequency.

Each entry point is a pure function from the driver state `Ccm` to a `Reply`.
A reply holds the error code and the next state. The state holds two things:

- the handle, `Option<Softc>`;
- a `Bus`: the register window as a map from offset to value, plus a log of
  every `ccm_read_4` and `ccm_write_4` in program order.

The log makes access order and "no register access" statable. One example is
that USB deactivation touches USB_CLK before AHB_GATING0.

Files:

- `bits.dfy` (`Bits`): register values as sets of one-bit positions. In this
  representation `|` is union, `& ~MASK` is difference, and `x << s` drops the
  bits that pass bit 31. It also defines fields (`Field`: shift and width, so
  each mask is contiguous) and `Get`/`Put`, which read and replace a field.
- `bus.dfy` (`Registers`): the window, the access log, and read-modify-write
  of single bits.
- `layout.dfy` (`CcmLayout`): the header's offsets, masks and field positions,
  as a parameter `Layout`. `Valid` lists all the model assumes of them:
  - the named registers are distinct;
  - every mask is contiguous;
  - the PLL6 pieces lie in the A10's order from bit 0 up (M, K, N, SATA_CLKEN,
    BYPASS, ENABLE), and so do the SD clock fields (M, OPHASE, N, PHASE,
    SRC_SEL, then the enable bit), so each group is pairwise disjoint;
  - N is at least 5 bits wide, so it can hold 25;
  - the divider M sits at bit 0;
  - each SD field is wide enough for the values written into it.

  `ConstantsFit` turns the widths into the fact that each constant fits.

  `ExampleLayout` is an A10-shaped instance that meets `Valid`.
- `divider.dfy` (`ClockDivider`): C integer arithmetic. `freq /= 1000`
  truncates toward zero, an `int` converts to `unsigned int`, and the divider
  `((pll / 2^n) / freq) - 1` wraps in `uint32_t`.
- `clk.dfy` (`A10Clk`): the driver's operations.
- `properties.dfy` (`ClkProperties`): properties that relate several calls.

The SD divider rounds toward a faster clock. When the input clock can reach
`f`, it yields `m` with `(m + 1) * f <= pll / 2^n < (m + 2) * f`. The divided
clock `pll / 2^n / (m + 1)` is therefore at least the requested `f`, and one
more step of division would go below `f`.

The driver ORs `m` into the register without masking it. The register holds
`m` only when `m` fits the M field. At 1 MHz the driver computes `m = 74`,
which a 4-bit M field, as on the A10, cannot hold: the field reads back 10 and
bit 6 lands outside it (`MmcDividerOverflowsAt1MHz`).

## Model

| member | source | states |
|---|---|---|
| A10Clk.Attach | sys/arm/allwinner/a10_clk.c:83-104 | When a controller is already attached, or the window cannot be allocated, attach fails with ENXIO and leaves the state as it was. Otherwise it succeeds and the handle names the new device. It never touches a register. |
| ClkProperties.SecondAttachFails | sys/arm/allwinner/a10_clk.c:89-101 | After one successful attach, any later attach fails with ENXIO and the handle still names the first device. |
| Registers.Read | sys/arm/allwinner/a10_clk.c:63-64 | `ccm_read_4`: returns the register's value and appends one load to the log; the window is unchanged. `SetBits`, `ClearBits`, `Pll6Enable`, `Pll6GetRate` and `MmcCfg` state what their reads observe. |
| Registers.Write | sys/arm/allwinner/a10_clk.c:65-66 | `ccm_write_4`: replaces one register's value and appends one store of that value to the log. The read-modify-write contracts (`SetBits`, `ClearBits`, `Pll6Enable`, `MmcCfg`) state its effect. |
| Registers.SetBits | sys/arm/allwinner/a10_clk.c:132-136 | A read-modify-write that ORs in `bits`: exactly those bits become set, no other bit or register changes, and the bus sees one load and then one store of the final value. |
| Registers.ClearBits | sys/arm/allwinner/a10_clk.c:159-164 | A read-modify-write that ANDs out `bits`: exactly those bits become clear, no other bit or register changes, and the bus sees one load and then one store. |
| A10Clk.UsbActivate | sys/arm/allwinner/a10_clk.c:122-147 | With no controller: ENXIO and no register access. Otherwise: the USB0/EHCI0/EHCI1 gates are set in AHB_GATING0, then the PHY and the three reset releases in USB_CLK; nothing else changes; AHB_GATING0 is written before USB_CLK. |
| ClkProperties.UsbActivateIdempotent | sys/arm/allwinner/a10_clk.c:131-144 | A second USB activation leaves every register as the first left it. |
| A10Clk.UsbDeactivate | sys/arm/allwinner/a10_clk.c:149-174 | With no controller: ENXIO and no register access. Otherwise: the same bits are cleared in reverse order (USB_CLK first, then AHB_GATING0), and nothing else changes. |
| ClkProperties.UsbDeactivateUndoesActivate | sys/arm/allwinner/a10_clk.c:122-174 | Deactivation after activation leaves the USB bits clear and every other bit as it was before the activation. If those bits were clear to begin with, the registers are exactly as before. |
| A10Clk.EmacActivate | sys/arm/allwinner/a10_clk.c:176-191 | With no controller: ENXIO and no register access. Otherwise only the EMAC gate becomes set, by one read-modify-write of AHB_GATING0. |
| ClkProperties.EmacActivateIdempotent | sys/arm/allwinner/a10_clk.c:185-188 | A second EMAC activation leaves every register as the first left it. |
| A10Clk.Pll6ConfigSpec | sys/arm/allwinner/a10_clk.c:206-213 | The new PLL6_CFG value has bypass clear, K = 0, M = 0, N = 25, and SATA_CLKEN and ENABLE set. Every bit outside those pieces keeps its old value. |
| A10Clk.Pll6Config | sys/arm/allwinner/a10_clk.c:206-213 | The value the driver writes to PLL6_CFG, computed as the code computes it. `Pll6ConfigSpec` specifies it independently, and `Pll6ConfigIdempotent` shows it is a fixed point once applied. |
| ClkProperties.Pll6ConfigIdempotent | sys/arm/allwinner/a10_clk.c:206-213 | Applying the PLL6 configuration to an already configured value yields that value. |
| A10Clk.Pll6Enable | sys/arm/allwinner/a10_clk.c:193-214 | PLL6_CFG ends up configured as above, with its other bits kept. No other register changes. The bus sees one load and then one store of PLL6_CFG. |
| ClkProperties.Pll6EnableIdempotent | sys/arm/allwinner/a10_clk.c:193-214 | A second PLL6 enable leaves every register as the first left it. |
| A10Clk.RateOfExact | sys/arm/allwinner/a10_clk.c:224-228 | When 24 MHz * n * (K + 1) fits in 32 bits, the computed rate is exactly 24 MHz * n * k / 2, with k = K + 1. |
| A10Clk.RateOf | sys/arm/allwinner/a10_clk.c:228 | `(CCM_CLK_REF_FREQ * n * k) / 2` in `unsigned int` arithmetic: the result is below 2^32. `RateOfExact` states it equals exact arithmetic when nothing wraps. |
| A10Clk.PllRate | sys/arm/allwinner/a10_clk.c:224-228 | The rate decoded from a PLL6_CFG value, from fields N and K with k = K + 1; below 2^32. `RateAfterEnable` states it is 300 MHz for every configured value. |
| A10Clk.Pll6GetRate | sys/arm/allwinner/a10_clk.c:216-229 | The rate is computed from one load of PLL6_CFG; no register changes. |
| A10Clk.RateAfterEnable | sys/arm/allwinner/a10_clk.c:199-228 | Any PLL6_CFG value, once configured, yields a rate of 300 MHz. |
| A10Clk.MmcActivate | sys/arm/allwinner/a10_clk.c:231-249 | With no controller: ENXIO and no register access. Otherwise PLL6 is configured, then the SD/MMC gate shifted by `devid` becomes set in AHB_GATING0; nothing else changes; the order is PLL6_CFG, then AHB_GATING0. |
| ClkProperties.MmcActivateRate | sys/arm/allwinner/a10_clk.c:231-249 | After an SD/MMC activation, a PLL6 rate query reports 300 MHz. |
| ClkProperties.MmcActivateIdempotent | sys/arm/allwinner/a10_clk.c:231-249 | A second activation of the same controller leaves every register as the first left it. |
| ClockDivider.Khz | sys/arm/allwinner/a10_clk.c:262 | The result is the quotient by 1000 truncated toward zero, for both signs of `freq`. |
| ClockDivider.ToUnsigned | sys/arm/allwinner/a10_clk.c:283 | A C `int` converts to the `unsigned int` that is congruent to it modulo 2^32. |
| A10Clk.TierOf | sys/arm/allwinner/a10_clk.c:263-282 | The band table: up to 400 kHz, the oscillator with phase 0, output phase 0 and n = 2; up to 25 MHz, PLL6 with 5/0/2; up to 50 MHz, PLL6 with 5/3/0; above that, no band. |
| ClockDivider.DividerFloor | sys/arm/allwinner/a10_clk.c:283 | When the pre-divided clock reaches `f`: (m + 1) * f <= pll / 2^n < (m + 2) * f. So m + 1 is the largest divisor that keeps the clock at or above `f`. |
| ClockDivider.DividerWraps | sys/arm/allwinner/a10_clk.c:283 | When the pre-divided clock is below `f` as unsigned: the quotient is 0 and `m` wraps to 2^32 - 1. |
| ClockDivider.Divider | sys/arm/allwinner/a10_clk.c:283 | `((pll_freq / (1 << n)) / freq) - 1` in `uint32_t`; the result is below 2^32. `DividerFloor` characterises it when the clock can reach `freq`, and `DividerWraps` when it cannot. |
| A10Clk.InputKhz | sys/arm/allwinner/a10_clk.c:263-280 | `pll_freq`: 24000 kHz for the oscillator band, otherwise the PLL6 rate divided by 1000. `MmcCfg` states that its divider comes from this input. |
| A10Clk.MmcDivider | sys/arm/allwinner/a10_clk.c:262-283 | The divider `m` for a requested frequency and a PLL6_CFG value: the band's input clock and exponent `n` fed to `Divider`. `MmcCfgAt400kHz`, `MmcCfgAt25MHz`, `MmcCfgAt50MHz` and `MmcDividerOverflowsAt1MHz` evaluate it. |
| A10Clk.SclkConfigSpec | sys/arm/allwinner/a10_clk.c:284-296 | The enable bit and the bits of `m` are set, and every bit outside the SD fields and `m` is kept. When `m` fits the M field: source, phase, N, output phase and M decode to their settings, and every other bit is kept. |
| A10Clk.SclkFields | sys/arm/allwinner/a10_clk.c:285-292 | The four field replacements for source, phase, N and output phase, in the code's order. `SclkConfigSpec` states what they leave in each field. |
| A10Clk.SclkConfig | sys/arm/allwinner/a10_clk.c:284-296 | The value written to the serial-clock register: the four field replacements, M cleared, `m` ORed in unmasked, and the enable bit set. `SclkConfigSpec` specifies it independently, and `SclkConfigIdempotent` shows it is a fixed point once applied. |
| A10Clk.SclkReg | sys/arm/allwinner/a10_clk.c:284 | The serial-clock register of controller `devid`: `MMC0_SCLK_CFG + devid * 4`. |
| ClkProperties.SclkConfigIdempotent | sys/arm/allwinner/a10_clk.c:284-296 | Rewriting a configured serial-clock value with the same settings yields the same value, even when `m` overflows its field. |
| A10Clk.MmcCfg | sys/arm/allwinner/a10_clk.c:251-299 | With no controller: ENXIO and no access. Above 50 MHz: EINVAL (if and only if) and no access. Otherwise only register MMC0 + 4 * devid changes, and it is configured as above. The bus sees a PLL6_CFG load only on the PLL6 bands, then one load and one store of that register. |
| ClkProperties.MmcCfgIdempotent | sys/arm/allwinner/a10_clk.c:251-299 | When the serial-clock register is not PLL6_CFG, a second identical call leaves every register as the first left it. |
| ClkProperties.MmcCfgAt400kHz | sys/arm/allwinner/a10_clk.c:262-296 | At 400 kHz the divider is 14 from the oscillator with n = 2. If 14 fits the M field, the register decodes to the oscillator band. |
| ClkProperties.MmcCfgAt25MHz | sys/arm/allwinner/a10_clk.c:269-296 | After activation, 25 MHz gives divider 2 from PLL6 with phase 5, output phase 0 and n = 2. |
| ClkProperties.MmcCfgAt50MHz | sys/arm/allwinner/a10_clk.c:275-296 | After activation, 50 MHz gives divider 5 from PLL6 with phase 5, output phase 3 and n = 0. |
| ClkProperties.MmcCfgAbove50MHz | sys/arm/allwinner/a10_clk.c:281-282 | 51 MHz is refused with EINVAL and the state is unchanged. |
| ClkProperties.MmcDividerOverflowsAt1MHz | sys/arm/allwinner/a10_clk.c:283-294 | On the example layout with PLL6 configured, 1 MHz gives divider 74, which the 4-bit M field cannot hold. Whatever the register held, its M field then reads back 10, and bit 6 of 74 is set outside every SD field. |
| Bits.PutGet | sys/arm/allwinner/a10_clk.c:285-292 | Clearing a field's mask and ORing in a value the field can hold leaves exactly that value in the field. Every bit outside the field is kept. |

## Left out

- The probe routine, the device method table, the driver structure and `DRIVER_MODULE` (lines 68-81 and 106-120): these are registration glue with no register behaviour.
- `bus_alloc_resource_any`, `rman_get_bustag` and `rman_get_bushandle`: resource allocation is an input. Attach gets its outcome as the flag `windowOk`, and the window is the `Bus` the state already holds.
- `device_printf`: console output.
- `bus_space_read_4` and `bus_space_write_4`: each becomes a map lookup or update plus a log entry. Barriers and device side effects of a write are not modelled.
- Concurrency: the source takes no lock, and the model is sequential.
- The SATA output formula `24 MHz * n * k / m / 6` appears only in a comment. The model covers the other-uses formula the code computes.
- The numeric values of ENXIO and EINVAL: they are the constructors `Enxio` and `Einval`.
- The header `a10_clk.h` is not part of this model. Its constants are the `Layout` parameter, constrained only by `Valid`. Single-bit flags are modelled as one-bit-wide fields.
- CcmLayout.Valid asks for the fields to lie in the A10's bit order, not only to be disjoint. The proofs use only the disjointness that follows from the order. The A10's bit positions, as in `ExampleLayout`, meet the order.
- `Bits.Word` is any set of positions. The type does not enforce the 32-bit bound. Every value the driver builds comes from `FromNat`, `Shl` and `Mask`, which only produce positions below 32.
- A10Clk.MmcCfg: requires `freq / 1000` to be non-zero whenever the band table accepts `freq`. For |freq| < 1000 the C code divides by zero, which is undefined behaviour.
- A10Clk.MmcCfg: requires the register `MMC0 + 4 * devid` to lie in the window, and `devid` and `4 * devid` to be C `int`s. The source checks neither, and an `int` overflow in `devid * 4` is undefined behaviour in C.
- A10Clk.MmcCfg: when `m` does not fit the M field, the contract states only that the bits of `m` and the enable bit are set and that bits outside the SD fields and `m` are kept. It does not say what the overlapped fields decode to.
- A10Clk.MmcActivate: requires `devid >= 0` and a shift that keeps the SD/MMC gate inside 32 bits. A negative or oversized shift is undefined behaviour in C, and the source leaves the bound to its callers.
- A10Clk.Pll6Enable and A10Clk.Pll6GetRate do not check the handle, just as the static C functions do not. They take the bus directly, and only `MmcActivate` and `MmcCfg` call them, after their own checks.
- A10Clk.SclkReg: computes `MMC0 + devid * 4` without `int` overflow. `MmcCfg` requires `devid` and `devid * 4` to be C `int`s, as the source's `int devid` and its multiplication by 4 demand, so every call it makes is one where C does not overflow.
