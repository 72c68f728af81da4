/** The XMODEM integrity field (xmodem.c, crc_nibble_rom / xmodem_check /
    xmodem_check_cal): CRC-16 with polynomial 0x1021 computed a nibble at a
    time from a 16-entry table, or an 8-bit additive checksum. */
module Integrity {
  import opened Uint

  /** The table `t` of xmodem.c. */
  const CrcTable: seq<bv16> := [
    0x0000, 0x1021, 0x2042, 0x3063, 0x4084, 0x50a5, 0x60c6, 0x70e7,
    0x8108, 0x9129, 0xa14a, 0xb16b, 0xc18c, 0xd1ad, 0xe1ce, 0xf1ef]

  // ---------------------------------------------------------------------
  // Byte and 16-bit word conversions.

  /** A byte promoted to 16 bits (the C integer promotion of a `uint8_t`). */
  function Widen(b: Byte): (w: bv16)
    ensures w < 256
  {
    b as bv16
  }

  /** The high byte of a 16-bit word. */
  function HiByte(c: bv16): Byte {
    (c >> 8) as Byte
  }

  /** The low byte of a 16-bit word. */
  function LoByte(c: bv16): Byte {
    (c & 0xFF) as Byte
  }

  /** The word whose big-endian bytes are hi, lo. */
  function Join(hi: Byte, lo: Byte): (c: bv16)
    ensures HiByte(c) == hi && LoByte(c) == lo
  {
    (Widen(hi) << 8) + Widen(lo)
  }

  lemma SplitJoin(c: bv16)
    ensures Join(HiByte(c), LoByte(c)) == c
  {
  }

  // ---------------------------------------------------------------------
  // Reference definition: the bit-serial, most-significant-bit-first CRC-16
  // with polynomial 0x1021 (CRC-16/XMODEM when started from 0).

  /** One clock of the shift register fed with message bit m: the bit that
      leaves the register, xor m, decides whether the polynomial is folded in. */
  function CrcBit(c: bv16, m: bool): bv16 {
    if (c & 0x8000 != 0) != m then (c << 1) ^ 0x1021 else c << 1
  }

  /** Four clocks, fed with the bits of a nibble, most significant first. */
  function CrcNibble(c: bv16, nib: bv16): bv16 {
    CrcBit(CrcBit(CrcBit(CrcBit(c, nib & 8 != 0), nib & 4 != 0), nib & 2 != 0), nib & 1 != 0)
  }

  /** Eight clocks, fed with the bits of a byte, most significant first. */
  function CrcByte(c: bv16, b: Byte): bv16 {
    var c4 := CrcBit(CrcBit(CrcBit(CrcBit(c, b & 0x80 != 0), b & 0x40 != 0), b & 0x20 != 0), b & 0x10 != 0);
    CrcBit(CrcBit(CrcBit(CrcBit(c4, b & 0x08 != 0), b & 0x04 != 0), b & 0x02 != 0), b & 0x01 != 0)
  }

  /** The bit-serial CRC of s, starting from register value init. */
  function Crc16(init: bv16, s: seq<Byte>): bv16 {
    if s == [] then init else CrcByte(Crc16(init, s[..|s| - 1]), s[|s| - 1])
  }

  // ---------------------------------------------------------------------
  // The table-driven form of crc_nibble_rom.

  /** The entry of `t` for nibble n (n < 16): the table is linear in n, so
      its sixteen entries have this closed form (see TableMatchesRom). */
  function TableEntry(n: bv16): bv16 {
    (n << 12) ^ (n << 5) ^ n
  }

  /** One nibble of crc_nibble_rom: `t[(sum>>12)^nib]^(sum<<4)`. */
  function NibbleStep(sum: bv16, nib: bv16): bv16 {
    TableEntry((sum >> 12) ^ nib) ^ (sum << 4)
  }

  /** One byte of crc_nibble_rom: the high nibble, then the low nibble. */
  function NibbleByte(sum: bv16, b: Byte): bv16 {
    var w := Widen(b);
    NibbleStep(NibbleStep(sum, w >> 4), w & 0xF)
  }

  function NibbleCrc(sum: bv16, s: seq<Byte>): bv16 {
    if s == [] then sum else NibbleByte(NibbleCrc(sum, s[..|s| - 1]), s[|s| - 1])
  }

  /** The sixteen words of the ROM table are the closed-form entries. */
  lemma TableMatchesRom(n: bv16)
    requires n < 16
    ensures CrcTable[n as int] == TableEntry(n)
  {
    if n < 8 {
      if n < 4 {
        if n == 0 {} else if n == 1 {} else if n == 2 {} else {}
      } else {
        if n == 4 {} else if n == 5 {} else if n == 6 {} else {}
      }
    } else {
      if n < 12 {
        if n == 8 {} else if n == 9 {} else if n == 10 {} else {}
      } else {
        if n == 12 {} else if n == 13 {} else if n == 14 {} else {}
      }
    }
  }

  // ---------------------------------------------------------------------
  // Proof that a table step is four clocks. The register is split into its
  // top nibble h and its low twelve bits l: four clocks of h alone are the
  // table entry, and l only shifts through the four clocks. The proof steps
  // are stated over the following names for xor, shift and mask so that
  // they chain by plain substitution.

  function Xor(a: bv16, b: bv16): bv16 { a ^ b }
  function Shl(a: bv16): bv16 { a << 1 }
  function Below15(a: bv16): bv16 { a & 0x7FFF }

  /** With the low twelve register bits clear, a table step is four clocks. */
  lemma NibbleStepTop(sum: bv16, nib: bv16)
    requires nib < 16
    ensures NibbleStep(sum & 0xF000, nib) == CrcNibble(sum & 0xF000, nib)
  {
  }

  /** A clock where the polynomial is folded in: bits below the top one shift. */
  lemma CrcBitLowFold(h: bv16, l: bv16, m: bool)
    requires (h & 0x8000 != 0) != m
    ensures CrcBit(Xor(h, Below15(l)), m) == Xor(CrcBit(h, m), Shl(Below15(l)))
  {
  }

  /** A clock where the polynomial is not folded in: bits below the top one shift. */
  lemma CrcBitLowPlain(h: bv16, l: bv16, m: bool)
    requires (h & 0x8000 != 0) == m
    ensures CrcBit(Xor(h, Below15(l)), m) == Xor(CrcBit(h, m), Shl(Below15(l)))
  {
  }

  /** Register bits below the top one only shift through a clock. */
  lemma CrcBitLow(h: bv16, l: bv16, m: bool)
    ensures CrcBit(Xor(h, Below15(l)), m) == Xor(CrcBit(h, m), Shl(Below15(l)))
  {
    if (h & 0x8000 != 0) != m {
      CrcBitLowFold(h, l, m);
    } else {
      CrcBitLowPlain(h, l, m);
    }
  }

  /** The register is its top nibble xor its low twelve bits. */
  lemma SplitRegister(sum: bv16)
    ensures sum == Xor(sum & 0xF000, sum & 0xFFF)
  {
  }

  /** Twelve low bits and their first three shifts stay below the top bit. */
  lemma LowBelowTop0(sum: bv16)
    ensures Below15(sum & 0xFFF) == sum & 0xFFF
  {
  }

  lemma LowBelowTop1(sum: bv16)
    ensures Below15(Shl(sum & 0xFFF)) == Shl(sum & 0xFFF)
  {
  }

  lemma LowBelowTop2(sum: bv16)
    ensures Below15(Shl(Shl(sum & 0xFFF))) == Shl(Shl(sum & 0xFFF))
  {
  }

  lemma LowBelowTop3(sum: bv16)
    ensures Below15(Shl(Shl(Shl(sum & 0xFFF)))) == Shl(Shl(Shl(sum & 0xFFF)))
  {
  }

  lemma FourShifts(sum: bv16, nib: bv16)
    ensures Xor(CrcNibble(sum & 0xF000, nib), Shl(Shl(Shl(Shl(sum & 0xFFF)))))
         == CrcNibble(sum & 0xF000, nib) ^ ((sum & 0xFFF) << 4)
  {
    hide CrcNibble;
  }

  lemma CrcNibbleClocks(c: bv16, nib: bv16)
    ensures CrcNibble(c, nib) == CrcBit(CrcBit(CrcBit(CrcBit(c, nib & 8 != 0), nib & 4 != 0), nib & 2 != 0), nib & 1 != 0)
  {
  }

  /** The low twelve register bits only shift through four clocks. */
  lemma CrcNibbleLow(sum: bv16, nib: bv16)
    ensures CrcNibble(sum, nib) == CrcNibble(sum & 0xF000, nib) ^ ((sum & 0xFFF) << 4)
  {
    var h, l := sum & 0xF000, sum & 0xFFF;
    SplitRegister(sum);
    LowBelowTop0(sum);
    LowBelowTop1(sum);
    LowBelowTop2(sum);
    LowBelowTop3(sum);
    FourShifts(sum, nib);
    CrcNibbleClocks(sum, nib);
    CrcNibbleClocks(h, nib);
    hide *;
    var m3, m2, m1, m0 := nib & 8 != 0, nib & 4 != 0, nib & 2 != 0, nib & 1 != 0;
    var h1 := CrcBit(h, m3);
    var h2 := CrcBit(h1, m2);
    var h3 := CrcBit(h2, m1);
    CrcBitLow(h, l, m3);
    CrcBitLow(h1, Shl(l), m2);
    CrcBitLow(h2, Shl(Shl(l)), m1);
    CrcBitLow(h3, Shl(Shl(Shl(l))), m0);
  }

  lemma TopNibble(sum: bv16)
    ensures (sum & 0xF000) >> 12 == sum >> 12 && sum << 4 == (sum & 0xFFF) << 4
    ensures (sum & 0xF000) << 4 == 0 && (sum & 0xF000) & 0xFFF == 0
  {
  }

  /** Table steps also pass the low twelve register bits through as a shift. */
  lemma NibbleStepLow(sum: bv16, nib: bv16)
    ensures NibbleStep(sum, nib) == NibbleStep(sum & 0xF000, nib) ^ ((sum & 0xFFF) << 4)
  {
    TopNibble(sum);
    hide TableEntry;
  }

  /** One table step is four clocks of the shift register. */
  lemma NibbleStepIsCrcNibble(sum: bv16, nib: bv16)
    requires nib < 16
    ensures NibbleStep(sum, nib) == CrcNibble(sum, nib)
  {
    hide *;
    NibbleStepTop(sum, nib);
    CrcNibbleLow(sum, nib);
    NibbleStepLow(sum, nib);
  }

  /** Entry n of the table is the CRC of nibble n alone, from register 0. */
  lemma TableIsCrcOfNibble(n: bv16)
    requires n < 16
    ensures CrcTable[n as int] == CrcNibble(0, n)
  {
    TableMatchesRom(n);
    NibbleStepIsCrcNibble(0, n);
  }

  lemma NibblesOfByte(b: Byte)
    ensures Widen(b) >> 4 < 16 && Widen(b) & 0xF < 16
    ensures ((Widen(b) >> 4) & 8 != 0) == (b & 0x80 != 0) && ((Widen(b) >> 4) & 4 != 0) == (b & 0x40 != 0)
    ensures ((Widen(b) >> 4) & 2 != 0) == (b & 0x20 != 0) && ((Widen(b) >> 4) & 1 != 0) == (b & 0x10 != 0)
    ensures ((Widen(b) & 0xF) & 8 != 0) == (b & 0x08 != 0) && ((Widen(b) & 0xF) & 4 != 0) == (b & 0x04 != 0)
    ensures ((Widen(b) & 0xF) & 2 != 0) == (b & 0x02 != 0) && ((Widen(b) & 0xF) & 1 != 0) == (b & 0x01 != 0)
  {
  }

  /** The two table steps of a byte are its eight clocks. */
  lemma NibbleByteIsCrcByte(sum: bv16, b: Byte)
    ensures NibbleByte(sum, b) == CrcByte(sum, b)
  {
    var w := Widen(b);
    NibblesOfByte(b);
    NibbleStepIsCrcNibble(sum, w >> 4);
    NibbleStepIsCrcNibble(NibbleStep(sum, w >> 4), w & 0xF);
    CrcNibbleClocks(sum, w >> 4);
    CrcNibbleClocks(NibbleStep(sum, w >> 4), w & 0xF);
    hide CrcBit;
    hide NibbleStep;
  }

  /** crc_nibble_rom computes the bit-serial CRC-16 (polynomial 0x1021) of its bytes. */
  lemma {:induction false} NibbleCrcIsCrc16(sum: bv16, s: seq<Byte>)
    ensures NibbleCrc(sum, s) == Crc16(sum, s)
  {
    if s != [] {
      NibbleCrcIsCrc16(sum, s[..|s| - 1]);
      NibbleByteIsCrcByte(NibbleCrc(sum, s[..|s| - 1]), s[|s| - 1]);
    }
  }

  /** The register after each byte of "123456789". */
  lemma CheckValueSteps()
    ensures CrcByte(0, 0x31) == 0x2672 && CrcByte(0x2672, 0x32) == 0x20B5
    ensures CrcByte(0x20B5, 0x33) == 0x9752 && CrcByte(0x9752, 0x34) == 0xD789
    ensures CrcByte(0xD789, 0x35) == 0x546C && CrcByte(0x546C, 0x36) == 0x20E4
    ensures CrcByte(0x20E4, 0x37) == 0x86D6 && CrcByte(0x86D6, 0x38) == 0x9015
    ensures CrcByte(0x9015, 0x39) == 0x31C3
  {
  }

  /** CRC-16/XMODEM check value: the CRC of "123456789" from 0 is 0x31C3. */
  lemma Crc16CheckValue()
    ensures Crc16(0, [0x31, 0x32, 0x33, 0x34, 0x35, 0x36, 0x37, 0x38, 0x39]) == 0x31C3
  {
    CheckValueSteps();
    hide CrcByte;
    var s: seq<Byte> := [0x31, 0x32, 0x33, 0x34, 0x35, 0x36, 0x37, 0x38, 0x39];
    assert Crc16(0, s[..1]) == 0x2672 by { assert s[..1][..0] == []; }
    assert Crc16(0, s[..2]) == 0x20B5 by { assert s[..2][..1] == s[..1]; }
    assert Crc16(0, s[..3]) == 0x9752 by { assert s[..3][..2] == s[..2]; }
    assert Crc16(0, s[..4]) == 0xD789 by { assert s[..4][..3] == s[..3]; }
    assert Crc16(0, s[..5]) == 0x546C by { assert s[..5][..4] == s[..4]; }
    assert Crc16(0, s[..6]) == 0x20E4 by { assert s[..6][..5] == s[..5]; }
    assert Crc16(0, s[..7]) == 0x86D6 by { assert s[..7][..6] == s[..6]; }
    assert Crc16(0, s[..8]) == 0x9015 by { assert s[..8][..7] == s[..7]; }
    assert s[..9] == s;
    assert s[..9][..8] == s[..8];
  }

  // ---------------------------------------------------------------------
  // Additive checksum.

  /** The `uint8_t` sum of the bytes (wraps modulo 256). */
  function Sum8(s: seq<Byte>): Byte {
    if s == [] then 0 else Sum8(s[..|s| - 1]) + s[|s| - 1]
  }

  // ---------------------------------------------------------------------
  // The trailer written after a payload and the check of a received one.

  /** The bytes xmodem_check_cal appends to a payload: the CRC big-endian in
      CRC mode, the checksum otherwise. */
  function Trailer(crc: bool, payload: seq<Byte>): (t: seq<Byte>)
    ensures |t| == TrailerLen(crc)
  {
    if crc then
      var c := Crc16(0, payload);
      [HiByte(c), LoByte(c)]
    else [Sum8(payload)]
  }

  function TrailerLen(crc: bool): nat {
    if crc then 2 else 1
  }

  /** What xmodem_check accepts: the big-endian CRC or the checksum matches. */
  predicate TrailerOk(crc: bool, payload: seq<Byte>, t: seq<Byte>)
    requires |t| == TrailerLen(crc)
  {
    if crc then Crc16(0, payload) == Join(t[0], t[1])
    else Sum8(payload) == t[0]
  }

  /** The check accepts exactly the trailer the sender computes, in both modes. */
  lemma TrailerOkIffTrailer(crc: bool, payload: seq<Byte>, t: seq<Byte>)
    requires |t| == TrailerLen(crc)
    ensures TrailerOk(crc, payload, t) <==> t == Trailer(crc, payload)
  {
    if crc {
      var c := Crc16(0, payload);
      SplitJoin(c);
      assert t == [t[0], t[1]];
    }
  }

  // ---------------------------------------------------------------------
  // The C routines, over the packet buffer.

  /** One statement of crc_nibble_rom's loop: `sum = t[(sum>>12)^nib]^(sum<<4)`,
      a lookup of the ROM table. */
  function RomStep(sum: bv16, nib: bv16): bv16
    requires nib < 16
  {
    CrcTable[((sum >> 12) ^ nib) as int] ^ (sum << 4)
  }

  /** The ROM lookup is the table step. */
  lemma RomStepIsNibbleStep(sum: bv16, nib: bv16)
    requires nib < 16
    ensures RomStep(sum, nib) == NibbleStep(sum, nib)
  {
    TableMatchesRom((sum >> 12) ^ nib);
  }

  /** The two statements run for byte x extend the CRC of the bytes before it. */
  lemma RomByteExtends(sum: bv16, s: seq<Byte>, i: nat, r: bv16, x: Byte)
    requires i < |s| && x == s[i]
    requires r == NibbleCrc(sum, s[..i])
    ensures Widen(x) >> 4 < 16 && Widen(x) & 0xF < 16
    ensures RomStep(RomStep(r, Widen(x) >> 4), Widen(x) & 0xF) == NibbleCrc(sum, s[..i + 1])
  {
    NibblesOfByte(x);
    var w := Widen(x);
    RomStepIsNibbleStep(r, w >> 4);
    RomStepIsNibbleStep(RomStep(r, w >> 4), w & 0xF);
    assert s[..i + 1][..i] == s[..i];
  }

  /** crc_nibble_rom(sum, p + off, len). */
  method CrcNibbleRom(sum: bv16, p: array<Byte>, off: nat, len: nat) returns (r: bv16)
    requires off + len <= p.Length
    ensures r == Crc16(sum, p[off..off + len])
  {
    ghost var s := p[off..off + len];
    r := sum;
    var i := 0;
    while i < len
      invariant 0 <= i <= len
      invariant r == NibbleCrc(sum, s[..i])
    {
      RomByteExtends(sum, s, i, r, p[off + i]);
      // hi nibble
      r := RomStep(r, Widen(p[off + i]) >> 4);
      // lo nibble
      r := RomStep(r, Widen(p[off + i]) & 0xF);
      i := i + 1;
    }
    assert s[..len] == s;
    NibbleCrcIsCrc16(sum, s);
  }

  /** The checksum loop shared by xmodem_check and xmodem_check_cal. */
  method Checksum(p: array<Byte>, off: nat, sz: nat) returns (cks: Byte)
    requires off + sz <= p.Length
    ensures cks == Sum8(p[off..off + sz])
  {
    cks := 0;
    for i := 0 to sz
      invariant cks == Sum8(p[off..off + i])
    {
      cks := cks + p[off + i];
      assert p[off..off + i + 1][..i] == p[off..off + i];
    }
  }

  /** xmodem_check(crc, p + off, sz): 0 when the trailer after the sz payload
      bytes is the right one for the mode, -1 otherwise. */
  method Check(crc: uint16, p: array<Byte>, off: nat, sz: nat) returns (r: int)
    requires off + sz + TrailerLen(crc != 0) <= p.Length
    ensures r == 0 || r == -1
    ensures r == 0 <==> p[off + sz..off + sz + TrailerLen(crc != 0)] == Trailer(crc != 0, p[off..off + sz])
  {
    var t := p[off + sz..off + sz + TrailerLen(crc != 0)];
    TrailerOkIffTrailer(crc != 0, p[off..off + sz], t);
    if crc != 0 {
      var c := CrcNibbleRom(0, p, off, sz);
      var tcrc := Join(p[off + sz], p[off + sz + 1]);
      if c == tcrc {
        return 0;
      }
    } else {
      var cks := Checksum(p, off, sz);
      if cks == p[off + sz] {
        return 0;
      }
    }
    return -1;
  }

  /** xmodem_check_cal(crc, p + off, sz): writes the trailer of the payload
      right after it and returns the CRC, or the checksum widened to 16 bits. */
  method CheckCal(crc: uint16, p: array<Byte>, off: nat, sz: nat) returns (check: bv16)
    requires off + sz + TrailerLen(crc != 0) <= p.Length
    modifies p
    ensures p[off + sz..off + sz + TrailerLen(crc != 0)] == Trailer(crc != 0, old(p[off..off + sz]))
    ensures p[..off + sz] == old(p[..off + sz]) && p[off + sz + TrailerLen(crc != 0)..] == old(p[off + sz + TrailerLen(crc != 0)..])
    ensures check == if crc != 0 then Crc16(0, old(p[off..off + sz])) else Widen(Sum8(old(p[off..off + sz])))
  {
    if crc != 0 {
      check := CrcNibbleRom(0, p, off, sz);
      p[off + sz + 1] := LoByte(check);
      p[off + sz] := HiByte(check);
    } else {
      var cks := Checksum(p, off, sz);
      p[off + sz] := cks;
      check := Widen(cks);
    }
  }

  /** Round trip: after CheckCal the receiver's check accepts the payload. */
  lemma CheckCalThenCheckAccepts(crc: bool, payload: seq<Byte>)
    ensures TrailerOk(crc, payload, Trailer(crc, payload))
  {
    TrailerOkIffTrailer(crc, payload, Trailer(crc, payload));
  }
}
