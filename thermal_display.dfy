/** The integer colour pipeline of MLX90642_disp.c: raw sensor readings
    (1/50 degree Celsius, as int16_t) to whole degrees, degrees to an
    8-bit gray level along the line through (-40, 0) and (260, 255), gray
    to a three-channel colour, and the colour packed into the two bytes of
    a frame-buffer pixel. The sensor image is 32 columns of 24 pixels,
    768 gray entries; the sizes are written as literals, as in the loops
    of the source. */
module ThermalDisplay {
  import opened Uint
  import LcdItf

  // ---------------------------------------------------------------------
  // Temperature and gray level
  // ---------------------------------------------------------------------

  /** The temperature in whole degrees of a raw reading: (v * 2 + 50) / 100
      with C's truncating division, v the reading as int16_t. From -25 up
      (half a degree below zero) this rounds v / 50 to the nearest degree,
      halves up; below, the truncation toward zero moves the result half a
      degree up, so v / 50 lies in (t - 1.5, t - 0.5]. */
  function Temp(raw: uint16): (t: int)
    ensures -655 <= t <= 655
    ensures ToInt16(raw) >= -25 ==> 50 * t - 25 <= ToInt16(raw) < 50 * t + 25
    ensures ToInt16(raw) < -25 ==> 50 * t - 75 < ToInt16(raw) <= 50 * t - 25
  {
    CDiv(ToInt16(raw) * 2 + 50, 100)
  }

  /** The gray level of a temperature: 255 * (t + 40) / 300 in int32_t
      arithmetic (no overflow for |t| <= 655), truncated to uint8_t. Over
      -40..260 this is the line fit, a value in 0..255. */
  function GrayLevel(t: int): (g: uint8)
    requires -655 <= t <= 655
    ensures -40 <= t <= 260 ==> g == 255 * (t + 40) / 300
  {
    CDiv(255 * (t + 40), 300) % 256
  }

  /** The fit's end points: -40 degrees is black and 260 degrees white. */
  lemma GrayEnds()
    ensures GrayLevel(-40) == 0 && GrayLevel(260) == 255
  {
  }

  /** Inside the fitted range a hotter pixel is never darker. */
  lemma GrayMonotone(t1: int, t2: int)
    requires -40 <= t1 <= t2 <= 260
    ensures GrayLevel(t1) <= GrayLevel(t2)
  {
  }

  /** Outside the fitted range nothing clamps: the uint8_t truncation
      turns 262 degrees black and -42 degrees white. */
  lemma GrayWrapsOutsideFit()
    ensures GrayLevel(262) == 0 && GrayLevel(-42) == 255
  {
    assert CDiv(255 * 302, 300) == 256;
    assert CDiv(255 * -2, 300) == -1;
  }

  /** The gray level of one raw reading. */
  function PixelGray(raw: uint16): uint8 {
    GrayLevel(Temp(raw))
  }

  lemma PixelGrayIs(raw: uint16)
    ensures PixelGray(raw) == GrayLevel(Temp(raw))
  {
  }

  // ---------------------------------------------------------------------
  // The gray image
  // ---------------------------------------------------------------------

  /** The image mlx90642_temp2gray computes: entry idx = i * 24 + j takes
      the reading buffer[i] of the outer index, not buffer[idx]. */
  ghost function GrayImageAsWritten(buf: seq<uint16>): (g: seq<uint8>)
    requires |buf| >= 32
    ensures |g| == 768
  {
    seq(768, k requires 0 <= k < 768 => PixelGray(buf[k / 24]))
  }

  /** The image the double loop is meant to compute: entry idx from the
      reading of pixel idx. */
  ghost function GrayImage(buf: seq<uint16>): (g: seq<uint8>)
    requires |buf| >= 768
    ensures |g| == 768
  {
    seq(768, k requires 0 <= k < 768 => PixelGray(buf[k]))
  }

  /** Row i, column j of the loop is entry i * 24 + j. */
  lemma Position(i: nat, j: nat)
    requires j < 24
    ensures (i * 24 + j) / 24 == i
  {
  }

  /** mlx90642_temp2gray as written: for i < 32 and j < 24 it writes
      gray[idx], idx = i * 24 + j, from buffer[i]; each of the 768 entries
      is written once and nothing past them. */
  method Temp2GrayAsWritten(buffer: seq<uint16>, gray: array<uint8>)
    requires |buffer| >= 32 && gray.Length >= 768
    modifies gray
    ensures gray[..768] == GrayImageAsWritten(buffer)
    ensures gray[768..] == old(gray[768..])
  {
    hide PixelGray;
    var idx: nat := 0;
    var i: nat := 0;
    while i < 32
      invariant i <= 32 && idx == i * 24
      invariant forall k :: 0 <= k < idx ==> gray[k] == PixelGray(buffer[k / 24])
      invariant forall k :: idx <= k < gray.Length ==> gray[k] == old(gray[k])
    {
      var j: nat := 0;
      while j < 24
        invariant j <= 24 && idx == i * 24 + j
        invariant forall k :: 0 <= k < idx ==> gray[k] == PixelGray(buffer[k / 24])
        invariant forall k :: idx <= k < gray.Length ==> gray[k] == old(gray[k])
      {
        var temp := Temp(buffer[i]);
        Position(i, j);
        PixelGrayIs(buffer[i]);
        gray[idx] := GrayLevel(temp);
        idx := idx + 1;
        j := j + 1;
      }
      i := i + 1;
    }
    assert gray[..768] == GrayImageAsWritten(buffer);
  }

  /** mlx90642_temp2gray corrected to read buffer[idx]: the same double
      loop, each entry from its own pixel. */
  method Temp2Gray(buffer: seq<uint16>, gray: array<uint8>)
    requires |buffer| >= 768 && gray.Length >= 768
    modifies gray
    ensures gray[..768] == GrayImage(buffer)
    ensures gray[768..] == old(gray[768..])
  {
    hide PixelGray;
    var idx: nat := 0;
    var i: nat := 0;
    while i < 32
      invariant i <= 32 && idx == i * 24
      invariant forall k :: 0 <= k < idx ==> gray[k] == PixelGray(buffer[k])
      invariant forall k :: idx <= k < gray.Length ==> gray[k] == old(gray[k])
    {
      var j: nat := 0;
      while j < 24
        invariant j <= 24 && idx == i * 24 + j
        invariant forall k :: 0 <= k < idx ==> gray[k] == PixelGray(buffer[k])
        invariant forall k :: idx <= k < gray.Length ==> gray[k] == old(gray[k])
      {
        var temp := Temp(buffer[idx]);
        PixelGrayIs(buffer[idx]);
        gray[idx] := GrayLevel(temp);
        idx := idx + 1;
        j := j + 1;
      }
      i := i + 1;
    }
    assert gray[..768] == GrayImage(buffer);
  }

  /** As written, the image is 32 runs of 24 equal entries, run i the
      gray of buffer[i]. */
  lemma AsWrittenRuns(buf: seq<uint16>, i: nat, j: nat)
    requires |buf| >= 32 && i < 32 && j < 24
    ensures GrayImageAsWritten(buf)[i * 24 + j] == GrayImageAsWritten(buf)[i * 24]
    ensures GrayImageAsWritten(buf)[i * 24] == PixelGray(buf[i])
  {
    Position(i, j);
    Position(i, 0);
  }

  /** As written, only the first 32 readings reach the image. */
  lemma AsWrittenIgnoresRest(b1: seq<uint16>, b2: seq<uint16>)
    requires |b1| >= 32 && |b2| >= 32 && b1[..32] == b2[..32]
    ensures GrayImageAsWritten(b1) == GrayImageAsWritten(b2)
  {
    forall k | 0 <= k < 768
      ensures GrayImageAsWritten(b1)[k] == GrayImageAsWritten(b2)[k]
    {
      assert b1[..32][k / 24] == b2[..32][k / 24];
    }
  }

  /** One frame where the two differ: a single warm pixel at position 1
      (100 degrees) among pixels at 0 degrees shows, as written, as the
      0-degree gray 34 instead of 119. */
  lemma AsWrittenMissesPixel()
    ensures var buf := seq(769, k requires 0 <= k < 769 => if k == 1 then 5000 else 0);
            GrayImageAsWritten(buf)[1] == 34 && GrayImage(buf)[1] == 119
  {
    var buf := seq(769, k requires 0 <= k < 769 => if k == 1 then 5000 else 0);
    assert buf[0] == 0 && buf[1] == 5000;
    assert Temp(0) == 0 && Temp(5000) == 100;
    assert GrayImageAsWritten(buf)[1] == PixelGray(buf[0]);
  }

  /** In the corrected image each entry is the gray of its own pixel: a
      pixel inside the fitted range gets the line fit, and of two such
      pixels the hotter is never darker. */
  lemma GrayImagePixels(buf: seq<uint16>, k1: nat, k2: nat)
    requires |buf| >= 768 && k1 < 768 && k2 < 768
    requires -40 <= Temp(buf[k1]) <= Temp(buf[k2]) <= 260
    ensures GrayImage(buf)[k1] as int == 255 * (Temp(buf[k1]) + 40) / 300
    ensures GrayImage(buf)[k1] <= GrayImage(buf)[k2]
  {
    GrayMonotone(Temp(buf[k1]), Temp(buf[k2]));
  }

  // ---------------------------------------------------------------------
  // Colour
  // ---------------------------------------------------------------------

  datatype Colour = Colour(r: uint8, g: uint8, b: uint8)

  /** mlx90642_gray2rgb: |0 - gray|, |127 - gray| and |255 - gray|, each
      stored in a uint8_t. */
  function Gray2Rgb(gray: uint8): (c: Colour)
    ensures c.r == gray && c.b == 255 - gray
    ensures c.g == Abs(127 - gray)
  {
    Colour(Abs(0 - gray) % 256, Abs(127 - gray) % 256, Abs(255 - gray) % 256)
  }

  /** The ramp: red rises with gray while blue falls by as much, and green
      peaks at both ends and vanishes only at mid gray 127. */
  lemma Gray2RgbRamp(g1: uint8, g2: uint8)
    requires g1 <= g2
    ensures Gray2Rgb(g1).r + Gray2Rgb(g1).b == 255
    ensures Gray2Rgb(g1).r <= Gray2Rgb(g2).r && Gray2Rgb(g1).b >= Gray2Rgb(g2).b
    ensures Gray2Rgb(g1).g <= 128 && (Gray2Rgb(g1).g == 0 <==> g1 == 127)
  {
  }

  /** The RGB macro as written: r & 0xF8 in bits 7..3, g >> 5 in bits
      2..0, g & 0xE0 in bits 15..13 and b & 0x1F in bits 12..8. */
  function RgbAsWritten(r: Byte, g: Byte, b: Byte): bv16 {
    ((r as bv16) & 0xF8) | ((g as bv16) >> 5) | ((((g as bv16) & 0xE0) | ((b as bv16) & 0x1F)) << 8)
  }

  /** The placement table of the macro as written. */
  lemma RgbAsWrittenFields(r: Byte, g: Byte, b: Byte)
    ensures RgbAsWritten(r, g, b) & 0xF8 == (r as bv16) & 0xF8
    ensures RgbAsWritten(r, g, b) & 0x07 == (g as bv16) >> 5
    ensures RgbAsWritten(r, g, b) >> 13 == (g as bv16) >> 5
    ensures (RgbAsWritten(r, g, b) >> 8) & 0x1F == (b as bv16) & 0x1F
  {
  }

  /** The RGB565 word of a colour: the top five bits of red, six of green
      and five of blue, red highest. */
  function Rgb565(r: Byte, g: Byte, b: Byte): bv16 {
    (((r as bv16) >> 3) << 11) | (((g as bv16) >> 2) << 5) | ((b as bv16) >> 3)
  }

  /** The byte layout the macro's own comment gives, byte 0 = R[7:3] G[7:5]
      and byte 1 = G[4:2] B[7:3]: the RGB565 word with its bytes exchanged,
      the order lcd_itf keeps its frame buffer in. */
  function Rgb(r: Byte, g: Byte, b: Byte): (c: bv16)
    ensures c == LcdItf.Swap(Rgb565(r, g, b))
  {
    ((r as bv16) & 0xF8) | ((g as bv16) >> 5) | (((((g as bv16) << 3) & 0xE0) | ((b as bv16) >> 3)) << 8)
  }

  /** The packed pixel keeps the top bits of every channel: five of red,
      six of green, five of blue, and so tells apart any two colours that
      differ there. */
  lemma RgbKeepsChannels(r: Byte, g: Byte, b: Byte)
    ensures var w := LcdItf.Swap(Rgb(r, g, b));
            ((w >> 11) << 3) as Byte == r & 0xF8
            && (((w >> 5) & 0x3F) << 2) as Byte == g & 0xFC
            && ((w & 0x1F) << 3) as Byte == b & 0xF8
  {
  }

  /** The macro as written loses colour: a blue of 0xE0 and a green of
      0x1C both pack to black, where the RGB565 layout keeps them. */
  lemma RgbAsWrittenLosesColour()
    ensures RgbAsWritten(0, 0, 0xE0) == 0 && Rgb(0, 0, 0xE0) != 0
    ensures RgbAsWritten(0, 0x1C, 0) == 0 && Rgb(0, 0x1C, 0) != 0
  {
  }
}
