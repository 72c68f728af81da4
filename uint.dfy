/** Fixed-width integer vocabulary shared by the firmware modules.
    Bytes are bit-vectors so that `uint8_t` wrap-around is native; wider
    unsigned values are bounded ints and every wrap is written out. */
module Uint {

  type Byte = bv8

  datatype Option<T> = None | Some(value: T)

  /** The bytes of a string literal whose characters are all below 256. */
  function Ascii(s: string): (r: seq<Byte>)
    ensures |r| == |s|
  {
    seq(|s|, i requires 0 <= i < |s| => (s[i] as int % 256) as Byte)
  }

  const U16_LIMIT: int := 0x1_0000
  const U32_LIMIT: int := 0x1_0000_0000

  /** A `uint8_t` that is only compared and assigned, never wrapped. */
  type uint8 = x: int | 0 <= x < 0x100
  type uint16 = x: int | 0 <= x < 0x1_0000
  type uint32 = x: int | 0 <= x < 0x1_0000_0000

  /** `a + b` evaluated in `uint32_t` */
  function Add32(a: uint32, b: uint32): (r: uint32)
    ensures r == a + b || r == a + b - U32_LIMIT
    ensures r < a + b <==> a + b >= U32_LIMIT
  {
    (a + b) % U32_LIMIT
  }

  /** `a - b` evaluated in `uint32_t` */
  function Sub32(a: uint32, b: uint32): (r: uint32)
    ensures b <= a ==> r == a - b
    ensures a < b ==> r == a - b + U32_LIMIT
  {
    (a - b) % U32_LIMIT
  }

  /** C's `(uint8_t)x` for any integer x */
  function ToByte(x: int): Byte {
    (x % 256) as Byte
  }

  /** C's `(int16_t)x` for a `uint16_t` x (two's complement) */
  function ToInt16(x: uint16): (r: int)
    ensures -0x8000 <= r < 0x8000
    ensures (r - x) % U16_LIMIT == 0
  {
    if x < 0x8000 then x else x - U16_LIMIT
  }

  /** C's `/` on int operands: the quotient is truncated toward zero. */
  function CDiv(a: int, b: int): (q: int)
    requires b != 0
    ensures q * b == a - CRem(a, b)
    ensures a >= 0 && b > 0 ==> q == a / b
  {
    if (a >= 0) == (b > 0) then Abs(a) / Abs(b) else -(Abs(a) / Abs(b))
  }

  /** C's `%` on int operands: the remainder has the sign of the dividend. */
  function CRem(a: int, b: int): (r: int)
    requires b != 0
    ensures Abs(r) < Abs(b)
    ensures a >= 0 ==> r >= 0
    ensures a < 0 ==> r <= 0
  {
    if a >= 0 then a % Abs(b) else -(Abs(a) % Abs(b))
  }

  function Abs(x: int): (r: nat)
    ensures r == x || r == -x
  {
    if x < 0 then -x else x
  }

  function Min(a: int, b: int): (r: int)
    ensures r <= a && r <= b && (r == a || r == b)
  {
    if a <= b then a else b
  }

  function Max(a: int, b: int): (r: int)
    ensures r >= a && r >= b && (r == a || r == b)
  {
    if a >= b then a else b
  }
}
