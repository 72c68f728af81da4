/** The frame-buffer interface of lcd_itf.c: a 240 x 320 array of RGB565
    colours kept byte-swapped, in the order the panel takes them over SPI,
    and the window arithmetic of a direct fill. */
module LcdItf {
  import opened Uint

  /** The panel size, ILI9341V_HSIZE and ILI9341V_VSIZE. */
  const HSIZE: nat := 240
  const VSIZE: nat := 320
  const PIXELS: nat := HSIZE * VSIZE

  /** The colour as stored by lcd_itf_set_pixel: its two bytes exchanged. */
  function Swap(c: bv16): (s: bv16)
    ensures s >> 8 == c & 0xFF && s & 0xFF == c >> 8
  {
    ((c >> 8) & 0xFF) | ((c << 8) & 0xFF00)
  }

  /** The swap lcd_itf_get_pixel applies on the way back, written with
      the uint16_t truncation of `color << 8`: the same exchange. */
  function Unswap(c: bv16): (s: bv16)
    ensures s == Swap(c)
  {
    (c >> 8) | (c << 8)
  }

  /** Exchanging the bytes twice gives the colour back. */
  lemma SwapInvolution(c: bv16)
    ensures Unswap(Swap(c)) == c && Swap(Swap(c)) == c
  {
  }

  /** The buffer position of the pixel in column x of row y. */
  function Index(x: nat, y: nat): (k: nat)
    requires x < HSIZE && y < VSIZE
    ensures k < PIXELS && k % HSIZE == x && k / HSIZE == y
  {
    y * HSIZE + x
  }

  /** Distinct pixels occupy distinct buffer positions. */
  lemma IndexInjective(x1: nat, y1: nat, x2: nat, y2: nat)
    requires x1 < HSIZE && y1 < VSIZE && x2 < HSIZE && y2 < VSIZE
    requires Index(x1, y1) == Index(x2, y2)
    ensures x1 == x2 && y1 == y2
  {
  }

  /** The frame buffer (s_lcd_itf_dev.buffer). */
  class Lcd {
    const buffer: array<bv16>

    ghost predicate Valid()
      reads this
    {
      buffer.Length == PIXELS
    }

    /** The device with a frame buffer of the panel's size, which the user
        is to allocate; its initial contents are not specified. */
    constructor()
      ensures Valid() && fresh(buffer)
    {
      buffer := new bv16[PIXELS];
    }

    /** lcd_itf_get_pixel: the colour of pixel (x, y), its bytes exchanged
        back. */
    function GetPixel(x: nat, y: nat): (c: bv16)
      reads this, buffer
      requires Valid() && x < HSIZE && y < VSIZE
      ensures Swap(c) == buffer[Index(x, y)]
    {
      SwapInvolution(buffer[Index(x, y)]);
      Unswap(buffer[y * HSIZE + x])
    }

    /** lcd_itf_set_pixel: stores the byte-swapped colour at y * 240 + x and
        changes no other element. The source's range checks are commented
        out, so the caller must keep x and y on the panel. Afterwards the
        pixel reads back as the colour, and every other pixel reads as
        before. */
    method SetPixel(x: uint16, y: uint16, rgb565: bv16)
      requires Valid() && x < HSIZE && y < VSIZE
      modifies buffer
      ensures buffer[..] == old(buffer[..])[Index(x, y) := Swap(rgb565)]
      ensures GetPixel(x, y) == rgb565
      ensures forall x2: nat, y2: nat | x2 < HSIZE && y2 < VSIZE && (x2, y2) != (x, y) ::
        GetPixel(x2, y2) == old(GetPixel(x2, y2))
    {
      buffer[y * HSIZE + x] := ((rgb565 >> 8) & 0xFF) | ((rgb565 << 8) & 0xFF00);
      SwapInvolution(rgb565);
      forall x2: nat, y2: nat | x2 < HSIZE && y2 < VSIZE && (x2, y2) != (x, y)
        ensures GetPixel(x2, y2) == old(GetPixel(x2, y2))
      {
        if Index(x2, y2) == Index(x, y) {
          IndexInjective(x2, y2, x, y);
        }
        SwapInvolution(buffer[Index(x2, y2)]);
        SwapInvolution(old(buffer[Index(x2, y2)]));
      }
    }

    /** lcd_itf_set_pixel_0: the same store at a raw buffer offset, so
        SetPixel0(Index(x, y), c) leaves the buffer SetPixel(x, y, c)
        leaves. The offset is unchecked; the caller keeps it inside the
        buffer. */
    method SetPixel0(offset: uint32, rgb565: bv16)
      requires Valid() && offset < PIXELS
      modifies buffer
      ensures buffer[..] == old(buffer[..])[offset := Swap(rgb565)]
      ensures forall x: nat, y: nat | x < HSIZE && y < VSIZE && Index(x, y) == offset ::
        GetPixel(x, y) == rgb565
    {
      buffer[offset] := ((rgb565 >> 8) & 0xFF) | ((rgb565 << 8) & 0xFF00);
      SwapInvolution(rgb565);
    }
  }

  // ---------------------------------------------------------------------
  // Direct fill
  // ---------------------------------------------------------------------

  /** The arguments ili9341v_sync receives: the column range x0..x1, the
      row range y0..y1 (inclusive, as uint16_t) and the byte count. */
  datatype SyncArgs = SyncArgs(x0: uint16, x1: uint16, y0: uint16, y1: uint16, len: uint32)

  /** The argument arithmetic of lcd_itf_fill_direct: x + w - 1 and
      y + h - 1 truncated to uint16_t, and w * h * 2 taken as uint32_t. */
  function FillDirect(x: uint16, w: uint16, y: uint16, h: uint16): (a: SyncArgs)
    ensures a.x0 == x && a.y0 == y
    ensures 1 <= w && x + w <= U16_LIMIT ==> a.x1 - a.x0 + 1 == w
    ensures 1 <= h && y + h <= U16_LIMIT ==> a.y1 - a.y0 + 1 == h
    ensures w == 0 ==> a.x1 == (x - 1) % U16_LIMIT
    ensures h == 0 ==> a.y1 == (y - 1) % U16_LIMIT
  {
    SyncArgs(x, (x + w - 1) % U16_LIMIT, y, (y + h - 1) % U16_LIMIT, (w * h * 2) % U32_LIMIT)
  }

  /** A window that fits the panel asks for exactly its own pixels: the
      ranges end at x + w - 1 and y + h - 1, so they span w columns and h
      rows, and the byte count is two bytes for each of the w * h pixels. */
  lemma FillDirectWindow(x: uint16, w: uint16, y: uint16, h: uint16)
    requires 1 <= w && x + w <= 240 && 1 <= h && y + h <= 320
    ensures var a := FillDirect(x, w, y, h);
            a.x1 == x + w - 1 < HSIZE && a.y1 == y + h - 1 < VSIZE && a.len == 2 * w * h
  {
    var a := FillDirect(x, w, y, h);
    assert a.x1 == x + w - 1 && a.y1 == y + h - 1;
    assert a.len == 2 * w * h by {
      MulMono(w, h, 240, 320);
      LenSmall(w * h);
    }
  }

  lemma LenSmall(p: nat)
    requires p <= PIXELS
    ensures (p * 2) % U32_LIMIT == p * 2
  {
  }

  lemma MulMono(a: nat, b: nat, c: nat, d: nat)
    requires a <= c && b <= d
    ensures a * b <= c * d
  {
  }

  /** lcd_itf_sync's request is the fill of the whole panel. */
  lemma SyncIsFullFill()
    ensures FillDirect(0, HSIZE, 0, VSIZE) == SyncArgs(0, HSIZE - 1, 0, VSIZE - 1, PIXELS * 2)
  {
  }
}
