/** The clock tree arithmetic of clock.c: the PLL settings, the bus clock
    decoders that read RCC_CFGR, the prescaler codes clock_setup writes,
    and the wrap-around tick difference. Register values are `bv32`, as
    the hardware sees them; frequencies are in Hz. */
module Clock {
  import opened Uint

  const HSE_HZ: nat := 8_000_000
  const PLL_M: nat := 8
  const PLL_N: nat := 360
  const PLL_P: nat := 2
  const PLL_Q: nat := 7

  /** The VCO output: the HSE divided by M, multiplied by N. */
  const VCO_HZ: nat := (HSE_HZ / PLL_M) * PLL_N
  /** The system clock the PLL delivers. */
  const PLLCLK_HZ: nat := VCO_HZ / PLL_P
  /** Flash wait states for 180 MHz at 2.7-3.6 V. */
  const FLASH_LATENCY: nat := 5
  /** The SysTick reload for a 1 ms tick. */
  const SYSTICK_LOAD: nat := PLLCLK_HZ / 1000 - 1

  /** The PLL settings give the 180 MHz the build demands, inside the
      limits of the part: 2 <= M <= 63, a VCO of 100 to 432 MHz, P one of
      2, 4, 6 or 8; the 1 ms SysTick reload fits its 24-bit register. */
  lemma PllClock()
    ensures PLLCLK_HZ == 180_000_000 && VCO_HZ == 360_000_000
    ensures 2 <= PLL_M <= 63 && 100_000_000 <= VCO_HZ <= 432_000_000
    ensures PLL_P == 2 || PLL_P == 4 || PLL_P == 6 || PLL_P == 8
    ensures SYSTICK_LOAD < 0x100_0000
  {
  }

  function Pow2(n: nat): (r: nat)
    ensures r >= 1
  {
    if n == 0 then 1 else 2 * Pow2(n - 1)
  }

  // ---------------------------------------------------------------------
  // Bus clock decoders
  // ---------------------------------------------------------------------

  /** The branches of clock_get_apb1 and clock_get_apb2 on a 3-bit
      prescaler code. */
  function ApbClock(div: bv32): nat {
    if div == 4 then PLLCLK_HZ / 2
    else if div == 5 then PLLCLK_HZ / 4
    else if div == 6 then PLLCLK_HZ / 8
    else if div == 7 then PLLCLK_HZ / 16
    else PLLCLK_HZ
  }

  /** The branches of clock_get_ahb on a 4-bit prescaler code. */
  function AhbClock(div: bv32): nat {
    if div == 8 then PLLCLK_HZ / 2
    else if div == 9 then PLLCLK_HZ / 4
    else if div == 10 then PLLCLK_HZ / 8
    else if div == 11 then PLLCLK_HZ / 16
    else if div == 12 then PLLCLK_HZ / 64
    else if div == 13 then PLLCLK_HZ / 128
    else if div == 14 then PLLCLK_HZ / 256
    else if div == 15 then PLLCLK_HZ / 512
    else PLLCLK_HZ
  }

  /** The power of two an APB code divides by, from the encoding of the
      PPRE fields: a clear top bit means no division, otherwise the low
      two bits plus one. This table follows the decoder's if-chain; it is
      here to state ApbDecodes, which is the result about the decoder. */
  function ApbShift(div: bv32): (k: nat)
    requires div < 8
    ensures k <= 4
  {
    if div < 4 then 0
    else if div == 4 then 1 else if div == 5 then 2 else if div == 6 then 3 else 4
  }

  /** The power of two an AHB code divides by, from the encoding of the
      HPRE field: a clear top bit means no division; the eight set-top-bit
      codes divide by 2, 4, 8, 16, 64, 128, 256 and 512, skipping 32. This
      table follows the decoder's if-chain; it is here to state AhbDecodes,
      which is the result about the decoder. */
  function AhbShift(div: bv32): (k: nat)
    requires div < 16
    ensures k <= 9 && k != 5
  {
    if div < 8 then 0
    else if div <= 11 then (if div == 8 then 1 else if div == 9 then 2 else if div == 10 then 3 else 4)
    else if div == 12 then 6 else if div == 13 then 7 else if div == 14 then 8 else 9
  }

  /** clock_get_apb1: the APB1 clock from the 3-bit PPRE1 field at bit 10. */
  function Apb1(cfgr: bv32): (hz: nat)
    ensures hz == PLLCLK_HZ / Pow2(ApbShift((cfgr >> 10) & 7))
    ensures hz * Pow2(ApbShift((cfgr >> 10) & 7)) == PLLCLK_HZ
  {
    ApbDecodes((cfgr >> 10) & 7);
    ApbClock((cfgr >> 10) & 7)
  }

  /** clock_get_apb2: the APB2 clock from the 3-bit PPRE2 field at bit 13. */
  function Apb2(cfgr: bv32): (hz: nat)
    ensures hz == PLLCLK_HZ / Pow2(ApbShift((cfgr >> 13) & 7))
    ensures hz * Pow2(ApbShift((cfgr >> 13) & 7)) == PLLCLK_HZ
  {
    ApbDecodes((cfgr >> 13) & 7);
    ApbClock((cfgr >> 13) & 7)
  }

  /** clock_get_ahb: the AHB clock from the 4-bit HPRE field at bit 4. */
  function Ahb(cfgr: bv32): (hz: nat)
    ensures hz == PLLCLK_HZ / Pow2(AhbShift((cfgr >> 4) & 0xF))
  {
    AhbDecodes((cfgr >> 4) & 0xF);
    AhbClock((cfgr >> 4) & 0xF)
  }

  /** Every APB code divides the system clock exactly by the power of two
      its encoding names. */
  lemma ApbDecodes(div: bv32)
    requires div < 8
    ensures ApbClock(div) == PLLCLK_HZ / Pow2(ApbShift(div))
    ensures ApbClock(div) * Pow2(ApbShift(div)) == PLLCLK_HZ
  {
    PllClock();
    Pow2Small();
  }

  /** Every AHB code divides the system clock by the power of two its
      encoding names; up to 256 the division is exact, and by 512 it
      truncates (180 MHz is 2^8 times an odd number). */
  lemma AhbDecodes(div: bv32)
    requires div < 16
    ensures AhbClock(div) == PLLCLK_HZ / Pow2(AhbShift(div))
    ensures AhbShift(div) <= 8 ==> AhbClock(div) * Pow2(AhbShift(div)) == PLLCLK_HZ
    ensures AhbShift(div) == 9 ==> AhbClock(div) == 351_562
  {
    PllClock();
    Pow2Small();
    if div < 8 {
      assert AhbShift(div) == 0 && AhbClock(div) == PLLCLK_HZ;
    } else if div < 12 {
      AhbDecodesBy16(div);
    } else {
      AhbDecodesBy512(div);
    }
  }

  lemma AhbDecodesBy16(div: bv32)
    requires 8 <= div < 12
    ensures AhbShift(div) <= 4 && AhbClock(div) * Pow2(AhbShift(div)) == 180_000_000
    ensures AhbClock(div) == 180_000_000 / Pow2(AhbShift(div))
  {
    PllClock();
    Pow2Small();
    if div == 8 {
      assert AhbShift(div) == 1;
    } else if div == 9 {
      assert AhbShift(div) == 2;
    } else if div == 10 {
      assert AhbShift(div) == 3;
    } else {
      assert AhbShift(div) == 4;
    }
  }

  lemma AhbDecodesBy512(div: bv32)
    requires 12 <= div < 16
    ensures AhbClock(div) == 180_000_000 / Pow2(AhbShift(div))
    ensures AhbShift(div) <= 8 ==> AhbClock(div) * Pow2(AhbShift(div)) == 180_000_000
    ensures AhbShift(div) == 9 ==> AhbClock(div) == 351_562
  {
    PllClock();
    Pow2Small();
    if div == 12 {
      assert AhbShift(div) == 6;
    } else if div == 13 {
      assert AhbShift(div) == 7;
    } else if div == 14 {
      assert AhbShift(div) == 8;
    } else {
      assert AhbShift(div) == 9;
    }
  }

  lemma Pow2Small()
    ensures Pow2(0) == 1 && Pow2(1) == 2 && Pow2(2) == 4 && Pow2(3) == 8 && Pow2(4) == 16
    ensures Pow2(6) == 64 && Pow2(7) == 128 && Pow2(8) == 256 && Pow2(9) == 512
  {
    assert Pow2(5) == 32;
  }

  /** No value of RCC_CFGR makes clock_get_ahb report a division by 32. */
  lemma AhbNeverDividesBy32(cfgr: bv32)
    ensures Ahb(cfgr) != PLLCLK_HZ / 32
  {
    var k := AhbShift((cfgr >> 4) & 0xF);
    assert Pow2(4) == 16 && Pow2(6) == 64;
    if k > 5 {
      Pow2Grows(6, k);
    }
  }

  lemma {:induction false} Pow2Grows(a: nat, b: nat)
    requires a <= b
    ensures Pow2(a) <= Pow2(b)
  {
    if a < b {
      Pow2Grows(a, b - 1);
    }
  }

  // ---------------------------------------------------------------------
  // The prescaler codes clock_setup writes
  // ---------------------------------------------------------------------

  /** The RCC_CFGR fields (RM0090 layout; the register header is not part
      of this model). */
  const HPRE_MASK: bv32 := 0xF << 4
  const PPRE1_MASK: bv32 := 0x7 << 10
  const PPRE2_MASK: bv32 := 0x7 << 13

  /** clock_setup's update of RCC_CFGR: HPRE cleared (AHB undivided),
      PPRE1 set to 5 (divide by 4), PPRE2 set to 4 (divide by 2). */
  function SetupCfgr(val: bv32): bv32 {
    var v := val & !HPRE_MASK;
    var v := v & !PPRE1_MASK;
    var v := v | (0x5 << 10);
    var v := v & !PPRE2_MASK;
    v | (0x4 << 13)
  }

  /** Whatever RCC_CFGR held, after clock_setup the decoders read 180 MHz
      for AHB, 45 MHz for APB1 and 90 MHz for APB2, the maxima of the
      part, and every bit outside the three fields is kept. */
  lemma SetupClocks(val: bv32)
    ensures Ahb(SetupCfgr(val)) == 180_000_000
    ensures Apb1(SetupCfgr(val)) == 45_000_000
    ensures Apb2(SetupCfgr(val)) == 90_000_000
    ensures SetupCfgr(val) & !(HPRE_MASK | PPRE1_MASK | PPRE2_MASK) == val & !(HPRE_MASK | PPRE1_MASK | PPRE2_MASK)
  {
    SetupFields(val);
  }

  /** The three fields of the value clock_setup writes. */
  lemma SetupFields(val: bv32)
    ensures (SetupCfgr(val) >> 4) & 0xF == 0
    ensures (SetupCfgr(val) >> 10) & 7 == 5
    ensures (SetupCfgr(val) >> 13) & 7 == 4
  {
  }

  /** PLLCFGR source bit for the HSE (RM0090 layout). */
  const PLLSRC_HSE: bv32 := 1 << 22

  /** The RCC_PLLCFGR value clock_setup builds from the PLL settings. */
  const PLLCFGR: bv32 :=
    PLLSRC_HSE | (PLL_M as bv32) | ((PLL_N as bv32) << 6) | ((((PLL_P as bv32) >> 1) - 1) << 16) | ((PLL_Q as bv32) << 24)

  /** Each PLLCFGR field reads back its setting: M in bits 0-5, N in bits
      6-14, (P / 2 - 1) in bits 16-17, the HSE source at bit 22 and Q in
      bits 24-27. */
  lemma PllCfgrFields()
    ensures PLLCFGR & 0x3F == 8 && (PLLCFGR >> 6) & 0x1FF == 360
    ensures (PLLCFGR >> 16) & 3 == 0 && (PLLCFGR >> 22) & 1 == 1 && (PLLCFGR >> 24) & 0xF == 7
  {
  }

  // ---------------------------------------------------------------------
  // Tick difference
  // ---------------------------------------------------------------------

  /** diff_u32: the ticks from pre to now on a 32-bit counter that may
      have rolled over once. */
  function DiffU32(pre: uint32, now: uint32): (r: uint32)
    ensures r == (now - pre) % U32_LIMIT
    ensures Add32(pre, r) == now
  {
    if now >= pre then now - pre else 0xFFFF_FFFF - pre + now + 1
  }

  /** The difference is the count of ticks after pre: counting r ticks on
      from pre reaches now, and no smaller count does. */
  lemma DiffU32Least(pre: uint32, now: uint32, k: uint32)
    requires Add32(pre, k) == now
    ensures DiffU32(pre, now) == k
  {
  }
}
