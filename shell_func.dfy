/** The command table of shell_func.c and its hexadecimal-string parser. */
module ShellFunc {
  import opened Uint
  import opened CString
  import opened Shell

  /** A string literal as a NUL-terminated C string. */
  function CStr(s: string): (r: seq<Byte>)
    ensures |r| == |s| + 1 && r[|s|] == 0
  {
    Ascii(s) + [0]
  }

  /** g_shell_cmd_list_ast: thirteen commands, then the null row that ends
      the lookup. */
  const COMMANDS: seq<Entry> := [
    Command(CStr("help"), CStr("help")),
    Command(CStr("printmem"), CStr("printmem mode[hex/dec] addr[hex] len datasize[8/16/32] sig[1/0]")),
    Command(CStr("setmem"), CStr("setmem addr[hex] val[hex]")),
    Command(CStr("rxmem"), CStr("rxmem addr[hex] len")),
    Command(CStr("sxmem"), CStr("sxmem addr[hex] len")),
    Command(CStr("printflash"), CStr("printflash addr[hex] len")),
    Command(CStr("writeflash"), CStr("writeflash addr[hex] hexstr")),
    Command(CStr("rxspiflash"), CStr("rxspiflash addr[hex] len")),
    Command(CStr("sxspiflash"), CStr("sxspiflash addr[hex] len")),
    Command(CStr("restorespiflash"), CStr("restorespiflash ramaddr[hex] flashaddr[hex] len")),
    Command(CStr("dumpspiflash"), CStr("dumpspiflash flashaddr[hex] ramaddr[hex]  len")),
    Command(CStr("setbaud"), CStr("setbaud baud")),
    Command(CStr("mlx90642test"), CStr("mlx90642test num")),
    End
  ]

  /** The table is one the lookup can walk: its null row is the fourteenth. */
  lemma CommandTableOk()
    ensures TableOk(COMMANDS) && EndIndex(COMMANDS) == 13
  {
    assert COMMANDS[13] == End;
    assert forall i :: 0 <= i < 13 ==> COMMANDS[i].Command? && COMMANDS[i] != End;
  }

  // ---------------------------------------------------------------------
  // Hexadecimal digits
  // ---------------------------------------------------------------------

  predicate IsHexDigit(c: Byte) {
    (0x30 <= c <= 0x39) || (0x61 <= c <= 0x66) || (0x41 <= c <= 0x46)
  }

  /** The lower-case digit for a value below 16. */
  function LowerDigit(v: Byte): Byte
    requires v < 16
  {
    if v < 10 then 0x30 + v else 0x61 + v - 10
  }

  /** The upper-case digit for a value below 16. */
  function UpperDigit(v: Byte): Byte
    requires v < 16
  {
    if v < 10 then 0x30 + v else 0x41 + v - 10
  }

  /** ascii2uc: the value of a hexadecimal digit in either case, or None
      (the source's -1, with the out-parameter untouched) for any other
      byte. */
  function Ascii2Uc(c: Byte): (r: Option<Byte>)
    ensures r.Some? <==> IsHexDigit(c)
    ensures r.Some? ==> r.value < 16 && (c == LowerDigit(r.value) || c == UpperDigit(r.value))
  {
    if 0x30 <= c <= 0x39 then Some(c - 0x30)
    else if 0x61 <= c <= 0x66 then Some(c - 0x61 + 10)
    else if 0x41 <= c <= 0x46 then Some(c - 0x41 + 10)
    else None
  }

  /** Every value below 16 is read back from its digit in either case. */
  lemma Ascii2UcInverts(v: Byte)
    requires v < 16
    ensures Ascii2Uc(LowerDigit(v)) == Some(v) && Ascii2Uc(UpperDigit(v)) == Some(v)
  {
  }

  // ---------------------------------------------------------------------
  // Hexadecimal strings
  // ---------------------------------------------------------------------

  /** The byte two hexadecimal digits spell, high digit first. */
  function PairValue(hi: Byte, lo: Byte): Byte
    requires IsHexDigit(hi) && IsHexDigit(lo)
  {
    Ascii2Uc(hi).value * 16 + Ascii2Uc(lo).value
  }

  /** The bytes spelled by the leading pairs of hexadecimal digits of s;
      the pairs stop at the first pair that is not two digits. */
  function HexPairs(s: seq<Byte>): (r: seq<Byte>)
    ensures 2 * |r| <= |s|
  {
    if |s| >= 2 && IsHexDigit(s[0]) && IsHexDigit(s[1]) then
      [PairValue(s[0], s[1])] + HexPairs(s[2..])
    else []
  }

  /** Each decoded byte comes from the two digits at its position. */
  lemma {:induction false} HexPairsDigits(s: seq<Byte>, k: nat)
    requires k < |HexPairs(s)|
    ensures IsHexDigit(s[2 * k]) && IsHexDigit(s[2 * k + 1])
    ensures HexPairs(s)[k] == PairValue(s[2 * k], s[2 * k + 1])
  {
    if k > 0 {
      HexPairsDigits(s[2..], k - 1);
      assert s[2..][2 * (k - 1)] == s[2 * k];
      assert s[2..][2 * (k - 1) + 1] == s[2 * k + 1];
    }
  }

  /** Decoding stops only at a pair that is not two digits, or at the end. */
  lemma {:induction false} HexPairsStops(s: seq<Byte>)
    ensures var n := |HexPairs(s)|;
            2 * n + 1 < |s| ==> !IsHexDigit(s[2 * n]) || !IsHexDigit(s[2 * n + 1])
  {
    if |s| >= 2 && IsHexDigit(s[0]) && IsHexDigit(s[1]) {
      HexPairsStops(s[2..]);
      var n := |HexPairs(s[2..])|;
      if 2 * n + 3 < |s| {
        assert s[2..][2 * n] == s[2 * (n + 1)];
        assert s[2..][2 * n + 1] == s[2 * (n + 1) + 1];
      }
    }
  }

  /** The lower-case spelling of bytes, two digits each, high digit first. */
  function HexEncode(d: seq<Byte>): (s: seq<Byte>)
    ensures |s| == 2 * |d|
  {
    if d == [] then [] else [LowerDigit(d[0] / 16), LowerDigit(d[0] % 16)] + HexEncode(d[1..])
  }

  /** The two digits of a byte spell it. */
  lemma DigitsOfByte(b: Byte)
    ensures IsHexDigit(LowerDigit(b / 16)) && IsHexDigit(LowerDigit(b % 16))
    ensures PairValue(LowerDigit(b / 16), LowerDigit(b % 16)) == b
  {
    Ascii2UcInverts(b / 16);
    Ascii2UcInverts(b % 16);
  }

  /** Two digits in front of anything spell one more byte in front. */
  lemma HexPairsCons(hi: Byte, lo: Byte, rest: seq<Byte>)
    requires IsHexDigit(hi) && IsHexDigit(lo)
    ensures HexPairs([hi, lo] + rest) == [PairValue(hi, lo)] + HexPairs(rest)
  {
    assert ([hi, lo] + rest)[2..] == rest;
  }

  /** Reading the spelling of d, followed by anything, gives d back and then
      whatever the rest spells. */
  lemma {:induction false} HexPairsOfEncode(d: seq<Byte>, t: seq<Byte>)
    ensures HexPairs(HexEncode(d) + t) == d + HexPairs(t)
  {
    if d != [] {
      var hi, lo := LowerDigit(d[0] / 16), LowerDigit(d[0] % 16);
      var rest := HexEncode(d[1..]) + t;
      assert HexEncode(d) + t == [hi, lo] + rest;
      assert HexPairs([hi, lo] + rest) == [d[0]] + HexPairs(rest) by {
        DigitsOfByte(d[0]);
        HexPairsCons(hi, lo, rest);
      }
      HexPairsOfEncode(d[1..], t);
      assert d == [d[0]] + d[1..];
    } else {
      assert HexEncode(d) + t == t;
    }
  }

  /** A spelled-out byte string read up to its NUL gives the bytes back,
      and one extra digit before the NUL is dropped. */
  lemma HexRoundTrip(d: seq<Byte>, x: Byte)
    requires IsHexDigit(x)
    ensures HexPairs(HexEncode(d) + [0]) == d
    ensures HexPairs(HexEncode(d) + [x, 0]) == d
  {
    HexPairsOfEncode(d, [0]);
    HexPairsOfEncode(d, [x, 0]);
  }

  /** Two digits at i spell the next decoded byte. */
  lemma HexPairsStep(s: seq<Byte>, i: nat)
    requires i + 1 < |s| && IsHexDigit(s[i]) && IsHexDigit(s[i + 1])
    ensures HexPairs(s[i..]) == [PairValue(s[i], s[i + 1])] + HexPairs(s[i + 2..])
  {
    assert s[i..][2..] == s[i + 2..];
  }

  /** A non-digit at i, or at i + 1, ends the decoding. */
  lemma HexPairsStop(s: seq<Byte>, i: nat)
    requires i + 1 < |s| ==> !IsHexDigit(s[i]) || !IsHexDigit(s[i + 1])
    requires i < |s|
    ensures HexPairs(s[i..]) == []
  {
  }

  /** The two ascii2uc calls of one round of str2hex: the byte spelled by
      the digits at i and i + 1, or None when either is not a digit. */
  method NextPair(str: seq<Byte>, i: nat) returns (hex: Option<Byte>)
    requires 0 in str && i <= CLen(str)
    ensures hex.None? ==> HexPairs(str[i..]) == []
    ensures hex.Some? ==> i + 2 <= CLen(str) && HexPairs(str[i..]) == [hex.value] + HexPairs(str[i + 2..])
  {
    var tmp1 := Ascii2Uc(str[i]);
    if tmp1.None? {
      HexPairsStop(str, i);
      return None;
    }
    var tmp2 := Ascii2Uc(str[i + 1]);
    if tmp2.None? {
      HexPairsStop(str, i);
      return None;
    }
    HexPairsStep(str, i);
    return Some(tmp1.value * 16 + tmp2.value);
  }

  /** str2hex: decodes pairs of digits from the C string str into buff,
      stopping at the first pair that is not two digits or once len bytes
      are written. The bound is tested after the write, so len = 0 still
      lets one byte through. Returns the number of bytes written. */
  method Str2Hex(str: seq<Byte>, buff: array<Byte>, len: uint32) returns (num: uint32)
    requires 0 in str && |str| < U32_LIMIT
    requires buff.Length >= Min(|HexPairs(str)|, Max(len, 1))
    modifies buff
    ensures num as nat == Min(|HexPairs(str)|, Max(len, 1))
    ensures buff[..num] == HexPairs(str)[..num] && buff[num..] == old(buff[num..])
  {
    hide HexPairs;
    num := 0;
    var i: nat := 0;
    while true
      invariant i == 2 * num as nat && i <= CLen(str)
      invariant num as nat <= |HexPairs(str)| && num as nat <= Max(len, 1)
      invariant HexPairs(str) == buff[..num] + HexPairs(str[i..])
      invariant num == 0 || num < len
      invariant buff[num..] == old(buff[num..])
      decreases |str| - i
    {
      var hex := NextPair(str, i);
      if hex.None? {
        break;
      }
      i := i + 2;
      ghost var written := buff[..num];
      buff[num] := hex.value;
      num := num + 1;
      assert buff[..num] == written + [hex.value];
      if num >= len {
        break;
      }
    }
  }
}
