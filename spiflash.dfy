/** The SPI NOR flash driver of spiflash.c: 24-bit addressed commands, and
    flash_write's split of a byte range into a head sector, whole middle
    sectors and a tail sector, each re-programmed through a 4 KB cache. */
module SpiFlash {
  import opened Uint
  import opened CString

  /** Geometry bound by flash_itf_init. */
  const SECTOR_SIZE: nat := 4096
  const SECTOR_BITS: nat := 12
  const PAGE_SIZE: nat := 256
  const PAGE_BITS: nat := 8
  /** Pages programmed per sector (the literal 16 of the page loops). */
  const PAGES_PER_SECTOR: nat := 16
  /** A 24-bit address reaches 16 MB. */
  const FLASH_SIZE: nat := 0x100_0000

  const CMD_PAGEPROGRAM: Byte := 0x02
  const CMD_READ: Byte := 0x03
  const CMD_ERASESECTOR: Byte := 0x20

  // ---------------------------------------------------------------------
  // Command encoding
  // ---------------------------------------------------------------------

  /** The 4-byte header of a read, page-program or erase command: the
      opcode, then bits 23..16, 15..8 and 7..0 of the address. */
  function Cmd(op: Byte, addr: bv32): (c: seq<Byte>)
    ensures |c| == 4 && c[0] == op
  {
    [op, ((addr >> 16) & 0xFF) as Byte, ((addr >> 8) & 0xFF) as Byte, (addr & 0xFF) as Byte]
  }

  /** The address a command header carries, as the chip reads it. */
  function Addr24(c: seq<Byte>): bv32
    requires |c| == 4
  {
    (c[1] as bv32 << 16) | (c[2] as bv32 << 8) | c[3] as bv32
  }

  /** A command carries the low 24 bits of its address, big-endian, so
      every address of the chip survives the encoding. */
  lemma CmdAddress(op: Byte, addr: bv32)
    ensures Addr24(Cmd(op, addr)) == addr & 0xFF_FFFF
    ensures addr < 0x100_0000 ==> Addr24(Cmd(op, addr)) == addr
  {
  }

  /** A command the driver sends, with the address it carries. */
  datatype FlashOp = ReadOp(addr: nat) | EraseOp(addr: nat) | ProgramOp(addr: nat)

  /** The header a command goes out with on the wire. */
  function Header(o: FlashOp): (c: seq<Byte>)
    requires o.addr < FLASH_SIZE
    ensures |c| == 4
    ensures c[0] == (if o.ReadOp? then CMD_READ else if o.EraseOp? then CMD_ERASESECTOR else CMD_PAGEPROGRAM)
  {
    var op := match o
      case ReadOp(_) => CMD_READ
      case EraseOp(_) => CMD_ERASESECTOR
      case ProgramOp(_) => CMD_PAGEPROGRAM;
    Cmd(op, o.addr as bv32)
  }

  /** The masks flash_write applies split an address into its sector base
      and its offset in the sector. */
  lemma SectorMask(a: bv32)
    ensures (a & !0xFFF) + (a & 0xFFF) == a
    ensures (a & 0xFFF) < 0x1000 && (a & !0xFFF) & 0xFFF == 0
    ensures (a >> 12) << 12 == a & !0xFFF
  {
  }

  // ---------------------------------------------------------------------
  // Head, middle and tail
  // ---------------------------------------------------------------------

  /** start_addr (the sector base below addr), sec_head (addr's offset in
      it), sec_tail (the bytes in the last, partial sector) and sec_mid_num
      (the whole sectors between). */
  datatype Layout = Layout(start: nat, head: nat, tail: nat, mid: nat)

  /** How many caller bytes the head sector takes. */
  function Fill(p: Layout, len: nat): nat {
    if p.head == 0 then 0
    else if p.head < SECTOR_SIZE && len > SECTOR_SIZE - p.head then SECTOR_SIZE - p.head
    else len
  }

  /** The caller bytes the three steps write between them. */
  function Covered(p: Layout, len: nat): nat {
    Fill(p, len) + p.mid * SECTOR_SIZE + p.tail
  }

  /** The partition as flash_write computes it: one middle sector is given
      back whenever the range has a head or a tail. */
  function PartitionAsWritten(addr: nat, len: nat): (p: Layout)
    ensures p.start + p.head == addr && p.start % SECTOR_SIZE == 0 && p.head < SECTOR_SIZE
  {
    var start := addr - addr % SECTOR_SIZE;
    var end := (addr + len) - (addr + len) % SECTOR_SIZE;
    var head := addr % SECTOR_SIZE;
    var tail := if end != start || head == 0 then (addr + len) % SECTOR_SIZE else 0;
    var mid := (end - start) / SECTOR_SIZE;
    Layout(start, head, tail, if head != 0 || tail != 0 then (if mid > 1 then mid - 1 else 0) else mid)
  }

  /** The partition with the middle count reduced only for a head sector:
      a tail sector lies past the last whole sector and was never counted. */
  function Partition(addr: nat, len: nat): (p: Layout)
    ensures p.start + p.head == addr && p.start % SECTOR_SIZE == 0 && p.head < SECTOR_SIZE
  {
    var start := addr - addr % SECTOR_SIZE;
    var end := (addr + len) - (addr + len) % SECTOR_SIZE;
    var head := addr % SECTOR_SIZE;
    var tail := if end != start || head == 0 then (addr + len) % SECTOR_SIZE else 0;
    var mid := (end - start) / SECTOR_SIZE;
    Layout(start, head, tail, if head != 0 then (if mid > 1 then mid - 1 else 0) else mid)
  }

  /** (k + n) sectors past a base, divided back, give k + n. */
  lemma SectorDiv(k: nat, n: nat)
    ensures ((k + n) * SECTOR_SIZE - k * SECTOR_SIZE) / SECTOR_SIZE == n
  {
    assert (k + n) * SECTOR_SIZE - k * SECTOR_SIZE == n * SECTOR_SIZE;
  }

  /** The corrected partition writes every byte once: the head fill, the
      middle sectors and the tail add up to len; a write that ends inside
      its head sector has nothing else; a tail ends exactly at addr + len,
      on a sector boundary plus the tail. */
  lemma {:induction false} PartitionCovers(addr: nat, len: nat)
    ensures var p := Partition(addr, len);
            && Covered(p, len) == len
            && p.tail < SECTOR_SIZE
            && (p.head > 0 && len < SECTOR_SIZE - p.head ==> p.mid == 0 && p.tail == 0)
            && (p.tail > 0 ==> (addr + len - p.tail) % SECTOR_SIZE == 0)
  {
    var k, h := addr / SECTOR_SIZE, addr % SECTOR_SIZE;
    var m, t := (addr + len) / SECTOR_SIZE, (addr + len) % SECTOR_SIZE;
    assert addr == k * SECTOR_SIZE + h && addr + len == m * SECTOR_SIZE + t;
    assert k <= m;
    SectorDiv(k, m - k);
    var p := Partition(addr, len);
    assert p.start == k * SECTOR_SIZE;
    if m == k {
      assert p.mid == 0;
    } else {
      assert (m - k) * SECTOR_SIZE == m * SECTOR_SIZE - k * SECTOR_SIZE;
      if h != 0 {
        assert p.mid == m - k - 1;
        assert (p.mid + 1) * SECTOR_SIZE == p.mid * SECTOR_SIZE + SECTOR_SIZE;
      } else {
        assert p.mid == m - k;
      }
    }
  }

  /** As written, the head-or-tail rule also applies to an aligned start
      with a tail: writing 4196 bytes at address 0 is treated as a tail
      alone, so only the first 100 caller bytes are written, at 0..99, and
      the other 4096 go nowhere. */
  lemma PartitionAsWrittenLosesSector()
    ensures PartitionAsWritten(0, SECTOR_SIZE + 100) == Layout(0, 0, 100, 0)
    ensures Covered(PartitionAsWritten(0, SECTOR_SIZE + 100), SECTOR_SIZE + 100) == 100
  {
    assert (SECTOR_SIZE + 100) - (SECTOR_SIZE + 100) % SECTOR_SIZE == SECTOR_SIZE;
  }

  /** As written, the partition is right whenever addr is not sector
      aligned, or the range ends on a sector boundary: there it agrees with
      the corrected one. */
  lemma PartitionAsWrittenAgrees(addr: nat, len: nat)
    requires addr % SECTOR_SIZE != 0 || (addr + len) % SECTOR_SIZE == 0
    ensures PartitionAsWritten(addr, len) == Partition(addr, len)
    ensures Covered(PartitionAsWritten(addr, len), len) == len
  {
    PartitionCovers(addr, len);
  }

  /** The head sector as flash_write builds it in the cache: the bytes
      before the write position are whatever the cache held, because only
      the part from sec_head on is read back. */
  function HeadSectorAsWritten(cache: seq<Byte>, sector: seq<Byte>, head: nat, data: seq<Byte>): (r: seq<Byte>)
    requires |cache| == SECTOR_SIZE && |sector| == SECTOR_SIZE && head + |data| <= SECTOR_SIZE
    ensures |r| == SECTOR_SIZE
  {
    cache[..head] + data + sector[head + |data|..]
  }

  /** The head sector with the whole sector read back first: everything
      outside the written range keeps the flash's bytes. */
  function HeadSector(sector: seq<Byte>, head: nat, data: seq<Byte>): (r: seq<Byte>)
    requires |sector| == SECTOR_SIZE && head + |data| <= SECTOR_SIZE
    ensures |r| == SECTOR_SIZE && r[..head] == sector[..head]
    ensures r[head..head + |data|] == data && r[head + |data|..] == sector[head + |data|..]
  {
    sector[..head] + data + sector[head + |data|..]
  }

  /** As written, a byte in front of the write position that the cache
      does not happen to hold is overwritten: with a zeroed cache and an
      erased sector, a write at offset 1 turns byte 0 from 0xFF into 0. */
  lemma HeadSectorAsWrittenClobbers()
    ensures var sector := seq(SECTOR_SIZE, _ => 0xFF);
            && HeadSectorAsWritten(seq(SECTOR_SIZE, _ => 0), sector, 1, [0x55])[0] == 0
            && HeadSector(sector, 1, [0x55])[0] == 0xFF
  {
  }

  // ---------------------------------------------------------------------
  // The device
  // ---------------------------------------------------------------------

  /** Bytes n erased bytes read as. */
  function Erased(n: nat): (r: seq<Byte>)
    ensures |r| == n
  {
    seq(n, _ => 0xFF)
  }

  /** The commands flash_write sends to re-program one sector: an erase,
      then sixteen page programs, page by page. */
  function SectorCmds(base: nat): (r: seq<FlashOp>)
    ensures |r| == PAGES_PER_SECTOR + 1
  {
    [EraseOp(base)] + seq(PAGES_PER_SECTOR, j requires 0 <= j < PAGES_PER_SECTOR => ProgramOp(base + j * PAGE_SIZE))
  }

  /** A flash_dev_st bound to the chip: the chip's bytes, the command
      headers sent so far, and the sector cache. */
  class FlashDev {
    var chip: seq<Byte>
    var sent: seq<FlashOp>
    const buffer: array<Byte>

    ghost predicate Valid()
      reads this
    {
      |chip| == FLASH_SIZE && buffer.Length == SECTOR_SIZE
    }

    constructor(chip0: seq<Byte>)
      requires |chip0| == FLASH_SIZE
      ensures Valid() && chip == chip0 && sent == [] && fresh(buffer)
    {
      chip := chip0;
      sent := [];
      buffer := new Byte[SECTOR_SIZE](_ => 0);
    }

    /** flash_read: len bytes from addr into dst at off; returns len. */
    method Read(dst: array<Byte>, off: nat, addr: uint32, len: uint32) returns (r: uint32)
      requires Valid() && addr as nat + len as nat <= FLASH_SIZE && off + len as nat <= dst.Length
      modifies this, dst
      ensures Valid() && chip == old(chip) && r == len
      ensures sent == old(sent) + [ReadOp(addr)]
      ensures dst[off..off + len] == chip[addr..addr + len]
      ensures dst[..off] == old(dst[..off]) && dst[off + len..] == old(dst[off + len..])
    {
      sent := sent + [ReadOp(addr)];
      var i: nat := 0;
      while i < len as nat
        invariant i <= len as nat
        invariant Valid() && chip == old(chip) && sent == old(sent) + [ReadOp(addr)]
        invariant dst[off..off + i] == chip[addr..addr as nat + i]
        invariant dst[..off] == old(dst[..off]) && dst[off + len..] == old(dst[off + len..])
      {
        ghost var before := dst[..];
        dst[off + i] := chip[addr as nat + i];
        assert dst[off..off + i + 1] == before[off..off + i] + [chip[addr as nat + i]];
        assert dst[..off] == before[..off] && dst[off + len..] == before[off + len..];
        i := i + 1;
      }
      return len;
    }

    /** flash_erase_sector: the chip erases the sector holding addr. */
    method EraseSector(addr: uint32)
      requires Valid() && addr as nat < FLASH_SIZE
      modifies this
      ensures Valid()
      ensures var base := addr - addr % SECTOR_SIZE;
              chip == old(chip)[..base] + Erased(SECTOR_SIZE) + old(chip)[base + SECTOR_SIZE..]
      ensures sent == old(sent) + [EraseOp(addr)]
    {
      sent := sent + [EraseOp(addr)];
      var base := addr - addr % SECTOR_SIZE;
      chip := chip[..base] + Erased(SECTOR_SIZE) + chip[base + SECTOR_SIZE..];
    }

    /** flash_pageprogram: len bytes of src from off go to the chip at addr,
        inside one page. */
    method PageProgram(src: array<Byte>, off: nat, addr: uint32, len: uint32)
      requires Valid() && addr as nat + len as nat <= FLASH_SIZE && off + len as nat <= src.Length
      requires addr % PAGE_SIZE + len <= PAGE_SIZE
      modifies this
      ensures Valid()
      ensures chip == old(chip)[..addr] + src[off..off + len] + old(chip)[addr + len..]
      ensures sent == old(sent) + [ProgramOp(addr)]
    {
      sent := sent + [ProgramOp(addr)];
      chip := chip[..addr] + src[off..off + len] + chip[addr + len..];
    }

    /** Erases the sector at base and programs its sixteen pages from src at
        off: the sector then holds those 4096 bytes. */
    method ProgramSector(src: array<Byte>, off: nat, base: uint32)
      requires Valid() && base % SECTOR_SIZE == 0 && base as nat + SECTOR_SIZE <= FLASH_SIZE
      requires off + SECTOR_SIZE <= src.Length
      modifies this
      ensures Valid()
      ensures chip == old(chip)[..base] + src[off..off + SECTOR_SIZE] + old(chip)[base as nat + SECTOR_SIZE..]
      ensures sent == old(sent) + SectorCmds(base)
    {
      hide Partial, SectorCmds;
      ghost var c0, data := chip, src[off..off + SECTOR_SIZE];
      EraseSector(base);
      PartialStart(c0, data, base as nat);
      SectorCmdsFirst(base as nat);
      var j: nat := 0;
      while j < PAGES_PER_SECTOR
        invariant j <= PAGES_PER_SECTOR && Valid()
        invariant chip == Partial(c0, data, base, j)
        invariant sent == old(sent) + SectorCmds(base)[..j + 1]
      {
        ProgramPage(src, off, base, j, c0, data);
        SectorCmdsStep(base as nat, j);
        j := j + 1;
      }
      assert SectorCmds(base)[..PAGES_PER_SECTOR + 1] == SectorCmds(base);
      PageStep(c0, data, base, 0);
    }

    /** Round j of the page loop of ProgramSector. */
    method ProgramPage(src: array<Byte>, off: nat, base: uint32, j: nat, ghost c0: seq<Byte>, ghost data: seq<Byte>)
      requires Valid() && base % SECTOR_SIZE == 0 && base as nat + SECTOR_SIZE <= FLASH_SIZE
      requires off + SECTOR_SIZE <= src.Length && data == src[off..off + SECTOR_SIZE]
      requires j < PAGES_PER_SECTOR && |c0| == FLASH_SIZE
      requires chip == Partial(c0, data, base as nat, j)
      modifies this
      ensures Valid() && chip == Partial(c0, data, base as nat, j + 1)
      ensures sent == old(sent) + [ProgramOp(base as nat + j * PAGE_SIZE)]
    {
      hide Partial;
      PageStep(c0, data, base as nat, j);
      var at := j * PAGE_SIZE;
      PageInSector(base as nat, j);
      assert src[off + at..off + at + PAGE_SIZE] == data[at..at + PAGE_SIZE];
      PageProgram(src, off + at, base + at as uint32, PAGE_SIZE as uint32);
    }

    /** The head step of flash_write, reading the whole sector back first:
        the cache becomes the sector with the fill bytes of src at head, and
        the sector is re-programmed from it. */
    method HeadStep(src: array<Byte>, base: uint32, head: nat, fill: nat)
      requires Valid() && base % SECTOR_SIZE == 0 && base as nat + SECTOR_SIZE <= FLASH_SIZE
      requires head + fill <= SECTOR_SIZE && fill <= src.Length && src != buffer
      modifies this, buffer
      ensures Valid()
      ensures buffer[..] == HeadSector(old(chip)[base..base as nat + SECTOR_SIZE], head, src[..fill])
      ensures chip == Spliced(old(chip), base as nat + head, src[..fill])
      ensures sent == old(sent) + [ReadOp(base as nat)] + SectorCmds(base as nat)
    {
      hide Spliced;
      ghost var c0 := chip;
      LoadHead(src, base, head, fill);
      ghost var cache := buffer[..];
      ProgramSector(buffer, 0, base);
      assert buffer[0..SECTOR_SIZE] == cache;
      ghost var sector := c0[base..base as nat + SECTOR_SIZE];
      assert cache == c0[base..base as nat + head] + src[..fill] + c0[base as nat + head + fill..base as nat + SECTOR_SIZE] by {
        assert sector[..head] == c0[base..base as nat + head];
        assert sector[head + fill..] == c0[base as nat + head + fill..base as nat + SECTOR_SIZE];
      }
      SpliceInside(c0, base as nat, base as nat + SECTOR_SIZE, base as nat + head, src[..fill]);
    }

    /** The cache of the head step: the whole sector read back, then the
        fill bytes of src copied in at head. */
    method LoadHead(src: array<Byte>, base: uint32, head: nat, fill: nat)
      requires Valid() && base as nat + SECTOR_SIZE <= FLASH_SIZE
      requires head + fill <= SECTOR_SIZE && fill <= src.Length && src != buffer
      modifies this, buffer
      ensures Valid() && chip == old(chip) && sent == old(sent) + [ReadOp(base as nat)]
      ensures buffer[..] == HeadSector(chip[base..base as nat + SECTOR_SIZE], head, src[..fill])
    {
      var _ := Read(buffer, 0, base, SECTOR_SIZE as uint32);
      ghost var sector := buffer[..];
      assert sector == chip[base..base as nat + SECTOR_SIZE];
      Memcpy(buffer, head, src, 0, fill);
      forall k | 0 <= k < SECTOR_SIZE
        ensures buffer[k] == HeadSector(sector, head, src[..fill])[k]
      {
        if head <= k < head + fill {
          assert buffer[head..head + fill][k - head] == buffer[k];
        }
      }
    }

    /** The tail step of flash_write: the cache takes the sector's bytes
        from tail on and the first tail bytes of src from pos in front of
        them, and the sector is re-programmed from it. */
    method TailStep(src: array<Byte>, pos: nat, base: uint32, tail: nat)
      requires Valid() && base % SECTOR_SIZE == 0 && base as nat + SECTOR_SIZE <= FLASH_SIZE
      requires tail < SECTOR_SIZE && pos + tail <= src.Length && src != buffer
      modifies this, buffer
      ensures Valid()
      ensures chip == Spliced(old(chip), base as nat, src[pos..pos + tail])
      ensures sent == old(sent) + [ReadOp(base as nat + tail)] + SectorCmds(base as nat)
    {
      hide Spliced;
      ghost var c0 := chip;
      LoadTail(src, pos, base, tail);
      ghost var cache := buffer[..];
      assert cache == c0[base..base] + src[pos..pos + tail] + c0[base as nat + tail..base as nat + SECTOR_SIZE];
      ProgramSector(buffer, 0, base);
      assert buffer[0..SECTOR_SIZE] == cache;
      SpliceInside(c0, base as nat, base as nat + SECTOR_SIZE, base as nat, src[pos..pos + tail]);
    }

    /** The cache of the tail step: the sector's bytes from tail on read
        back, then the first tail bytes of src from pos copied in front. */
    method LoadTail(src: array<Byte>, pos: nat, base: uint32, tail: nat)
      requires Valid() && base as nat + SECTOR_SIZE <= FLASH_SIZE
      requires tail < SECTOR_SIZE && pos + tail <= src.Length && src != buffer
      modifies this, buffer
      ensures Valid() && chip == old(chip) && sent == old(sent) + [ReadOp(base as nat + tail)]
      ensures buffer[..] == src[pos..pos + tail] + chip[base as nat + tail..base as nat + SECTOR_SIZE]
    {
      var _ := Read(buffer, tail, base + tail as uint32, (SECTOR_SIZE - tail) as uint32);
      ghost var b1 := buffer[..];
      Memcpy(buffer, 0, src, pos, tail);
      ghost var d := src[pos..pos + tail];
      ghost var rest := chip[base as nat + tail..base as nat + SECTOR_SIZE];
      forall k | 0 <= k < SECTOR_SIZE
        ensures buffer[k] == (d + rest)[k]
      {
        if k < tail {
          assert buffer[0..tail][k] == buffer[k];
        } else {
          assert b1[tail..SECTOR_SIZE][k - tail] == b1[k];
        }
      }
    }

    /** The partition flash_write computes, with the corrected middle
        count. */
    static method Split(addr: uint32, len: uint32) returns (start: uint32, head: uint32, tail: uint32, mid: uint32)
      requires addr as nat + len as nat <= FLASH_SIZE
      ensures Partition(addr as nat, len as nat) == Layout(start as nat, head as nat, tail as nat, mid as nat)
    {
      start := addr - addr % SECTOR_SIZE as uint32;
      var end := (addr + len) - (addr + len) % SECTOR_SIZE as uint32;
      head := addr % SECTOR_SIZE as uint32;
      tail := 0;
      if end != start || head == 0 {
        tail := (addr + len) % SECTOR_SIZE as uint32;
      }
      mid := (end - start) / SECTOR_SIZE as uint32;
      if head != 0 {
        mid := if mid > 1 then mid - 1 else 0;
      }
    }

    /** The middle loop of flash_write: n whole sectors re-programmed
        straight from src at pos, from base on. */
    method WriteMid(src: array<Byte>, pos: nat, base: uint32, n: uint32)
      requires Valid() && base % SECTOR_SIZE as uint32 == 0
      requires base as nat + n as nat * SECTOR_SIZE <= FLASH_SIZE
      requires pos + n as nat * SECTOR_SIZE <= src.Length
      modifies this
      ensures Valid()
      ensures chip == Spliced(old(chip), base as nat, src[pos..pos + n as nat * SECTOR_SIZE])
      ensures sent == old(sent) + MidOps(base as nat, n as nat)
    {
      hide Spliced, MidOps;
      ghost var c0 := chip;
      SplicedEmpty(c0, base as nat);
      assert src[pos..pos] == [];
      var i: uint32 := 0;
      while i < n
        invariant Valid() && i <= n
        invariant chip == Spliced(c0, base as nat, src[pos..pos + i as nat * SECTOR_SIZE])
        invariant sent == old(sent) + MidOps(base as nat, i as nat)
      {
        MidSector(src, pos, base, i, n, c0);
        MidOpsStep(base as nat, i as nat);
        i := i + 1;
      }
    }

    /** Round i of the middle loop: the sector i sectors past base is
        re-programmed from the matching bytes of src. */
    method MidSector(src: array<Byte>, pos: nat, base: uint32, i: uint32, n: uint32, ghost c0: seq<Byte>)
      requires Valid() && base % SECTOR_SIZE as uint32 == 0 && i < n && |c0| == FLASH_SIZE
      requires base as nat + n as nat * SECTOR_SIZE <= FLASH_SIZE
      requires pos + n as nat * SECTOR_SIZE <= src.Length
      requires chip == Spliced(c0, base as nat, src[pos..pos + i as nat * SECTOR_SIZE])
      modifies this
      ensures Valid()
      ensures chip == Spliced(c0, base as nat, src[pos..pos + (i as nat + 1) * SECTOR_SIZE])
      ensures sent == old(sent) + SectorCmds(base as nat + i as nat * SECTOR_SIZE)
    {
      hide Spliced;
      var off: nat := i as nat * SECTOR_SIZE;
      SectorsStep(i as nat, n as nat);
      AlignedStep(base as nat, i as nat);
      ghost var done, next := src[pos..pos + off], src[pos + off..pos + off + SECTOR_SIZE];
      ghost var c1 := chip;
      ProgramSector(src, pos + off, base + off as uint32);
      SplicedIs(c1, base as nat + off, next);
      SplicedExtend(c0, base as nat, done, next);
      assert done + next == src[pos..pos + off + SECTOR_SIZE];
    }

    /** flash_write with the head sector read back whole and the middle
        count corrected: the len bytes of src land at addr and every other
        byte of the chip keeps its value. Returns len. */
    method Write(src: array<Byte>, addr: uint32, len: uint32) returns (r: uint32)
      requires Valid() && addr as nat + len as nat <= FLASH_SIZE
      requires len as nat <= src.Length && src != buffer
      modifies this, buffer
      ensures Valid() && r == len
      ensures chip == Spliced(old(chip), addr as nat, src[..len])
      ensures sent == old(sent) + WriteOps(addr as nat, len as nat)
    {
      hide Partition, Spliced, HeadOps, TailOps, MidOps, Fill, MidStart;
      var start, head, tail, mid := Split(addr, len);
      ghost var p := Partition(addr as nat, len as nat);
      WriteLayout(addr as nat, len as nat);
      ghost var c0 := chip;
      var pos, next := WriteHead(src, addr, len, start, head, p);
      var midBytes: nat := mid as nat * SECTOR_SIZE;
      ghost var c1 := chip;
      WriteMid(src, pos, next, mid);
      SplicedCompose(c0, c1, chip, addr as nat, src[..], pos, midBytes, next as nat);
      pos := pos + midBytes;
      ghost var c2 := chip;
      WriteTail(src, pos, next + midBytes as uint32, tail, p);
      SplicedCompose(c0, c2, chip, addr as nat, src[..], pos, tail as nat, next as nat + midBytes);
      assert src[..][..pos + tail as nat] == src[..len];
      return len;
    }

    /** The head step of flash_write when addr is inside a sector; returns
        the caller bytes it took and the sector after it. */
    method WriteHead(src: array<Byte>, addr: uint32, len: uint32, start: uint32, head: uint32, ghost p: Layout)
        returns (pos: nat, next: uint32)
      requires Valid() && addr as nat + len as nat <= FLASH_SIZE
      requires len as nat <= src.Length && src != buffer
      requires p.start == start as nat && p.head == head as nat && start as nat + head as nat == addr as nat
      requires start % SECTOR_SIZE as uint32 == 0 && head < SECTOR_SIZE as uint32
      modifies this, buffer
      ensures Valid() && pos == Fill(p, len as nat) && next as nat == MidStart(p)
      ensures chip == Spliced(old(chip), addr as nat, src[..pos])
      ensures sent == old(sent) + HeadOps(p)
    {
      if head > 0 {
        var fill := if len > SECTOR_SIZE as uint32 - head then SECTOR_SIZE as uint32 - head else len;
        AlignedRoom(start as nat);
        HeadStep(src, start, head as nat, fill as nat);
        return fill as nat, start + SECTOR_SIZE as uint32;
      }
      assert chip == Spliced(chip, addr as nat, src[..0]);
      return 0, start;
    }

    /** The tail step of flash_write, when there is a tail. */
    method WriteTail(src: array<Byte>, pos: nat, base: uint32, tail: uint32, ghost p: Layout)
      requires Valid() && p.tail == tail as nat && base as nat == MidStart(p) + p.mid * SECTOR_SIZE
      requires base % SECTOR_SIZE as uint32 == 0 && tail < SECTOR_SIZE as uint32
      requires base as nat + tail as nat <= FLASH_SIZE && pos + tail as nat <= src.Length && src != buffer
      modifies this, buffer
      ensures Valid()
      ensures chip == Spliced(old(chip), base as nat, src[pos..pos + tail as nat])
      ensures sent == old(sent) + TailOps(p)
    {
      if tail > 0 {
        AlignedRoom(base as nat);
        TailStep(src, pos, base, tail as nat);
      } else {
        assert chip == Spliced(chip, base as nat, src[pos..pos]);
      }
    }
  }

  /** The chip part-way through re-programming the sector at base with
      data: j pages written, the rest still erased. */
  function Partial(c0: seq<Byte>, data: seq<Byte>, base: nat, j: nat): (c: seq<Byte>)
    requires |c0| == FLASH_SIZE && |data| == SECTOR_SIZE && base + SECTOR_SIZE <= FLASH_SIZE
    requires j <= PAGES_PER_SECTOR
    ensures |c| == FLASH_SIZE
  {
    c0[..base] + data[..j * PAGE_SIZE] + Erased(SECTOR_SIZE - j * PAGE_SIZE) + c0[base + SECTOR_SIZE..]
  }

  /** Before the first page the sector is erased. */
  lemma PartialStart(c0: seq<Byte>, data: seq<Byte>, base: nat)
    requires |c0| == FLASH_SIZE && |data| == SECTOR_SIZE && base + SECTOR_SIZE <= FLASH_SIZE
    ensures Partial(c0, data, base, 0) == c0[..base] + Erased(SECTOR_SIZE) + c0[base + SECTOR_SIZE..]
  {
    assert data[..0] == [];
  }

  /** Programming page j moves the re-programming one page on; after the
      last page the sector holds data. */
  lemma PageStep(c0: seq<Byte>, data: seq<Byte>, base: nat, j: nat)
    requires |c0| == FLASH_SIZE && |data| == SECTOR_SIZE && base + SECTOR_SIZE <= FLASH_SIZE
    requires j < PAGES_PER_SECTOR
    ensures var c, a := Partial(c0, data, base, j), base + j * PAGE_SIZE;
            c[..a] + data[j * PAGE_SIZE..j * PAGE_SIZE + PAGE_SIZE] + c[a + PAGE_SIZE..] == Partial(c0, data, base, j + 1)
    ensures Partial(c0, data, base, PAGES_PER_SECTOR) == c0[..base] + data + c0[base + SECTOR_SIZE..]
  {
    var c, a := Partial(c0, data, base, j), base + j * PAGE_SIZE;
    assert c[..a] == c0[..base] + data[..j * PAGE_SIZE];
    assert c[a + PAGE_SIZE..] == Erased(SECTOR_SIZE - (j + 1) * PAGE_SIZE) + c0[base + SECTOR_SIZE..];
    assert data[..(j + 1) * PAGE_SIZE] == data[..j * PAGE_SIZE] + data[j * PAGE_SIZE..j * PAGE_SIZE + PAGE_SIZE];
    assert data[..PAGES_PER_SECTOR * PAGE_SIZE] == data;
  }

  /** Page j of an aligned sector is page aligned and inside the sector. */
  lemma PageInSector(base: nat, j: nat)
    requires base % SECTOR_SIZE == 0 && j < PAGES_PER_SECTOR
    ensures (base + j * PAGE_SIZE) % PAGE_SIZE == 0 && j * PAGE_SIZE + PAGE_SIZE <= SECTOR_SIZE
  {
    var q := base / SECTOR_SIZE;
    assert base + j * PAGE_SIZE == (q * PAGES_PER_SECTOR + j) * PAGE_SIZE;
  }

  /** The command log grows by one page program per page. */
  lemma SectorCmdsStep(base: nat, j: nat)
    requires base < FLASH_SIZE && j < PAGES_PER_SECTOR
    ensures SectorCmds(base)[..j + 2] == SectorCmds(base)[..j + 1] + [ProgramOp(base + j * PAGE_SIZE)]
  {
    var r := SectorCmds(base);
    assert r[j + 1] == ProgramOp(base + j * PAGE_SIZE);
    assert r[..j + 2] == r[..j + 1] + [r[j + 1]];
  }

  /** A sector's commands open with its erase. */
  lemma SectorCmdsFirst(base: nat)
    ensures SectorCmds(base)[..1] == [EraseOp(base)]
  {
  }

  /** c with d written over it from position at. */
  function Spliced(c: seq<Byte>, at: nat, d: seq<Byte>): (r: seq<Byte>)
    requires at + |d| <= |c|
    ensures |r| == |c|
  {
    c[..at] + d + c[at + |d|..]
  }

  /** A splice spelled out as three slices. */
  lemma SplicedIs(c: seq<Byte>, at: nat, d: seq<Byte>)
    requires at + |d| <= |c|
    ensures Spliced(c, at, d) == c[..at] + d + c[at + |d|..]
  {
  }

  /** What a splice means: d at position at, c everywhere else. */
  lemma SplicedSlices(c: seq<Byte>, at: nat, d: seq<Byte>)
    requires at + |d| <= |c|
    ensures var r := Spliced(c, at, d);
            && r[..at] == c[..at] && r[at..at + |d|] == d && r[at + |d|..] == c[at + |d|..]
            && forall k :: 0 <= k < |c| ==> r[k] == if at <= k < at + |d| then d[k - at] else c[k]
  {
  }

  /** Writing d and then e right behind it writes d + e. */
  lemma SplicedExtend(c: seq<Byte>, at: nat, d: seq<Byte>, e: seq<Byte>)
    requires at + |d| + |e| <= |c|
    ensures Spliced(Spliced(c, at, d), at + |d|, e) == Spliced(c, at, d + e)
  {
    var w := Spliced(c, at, d);
    assert w[..at + |d|] == c[..at] + d;
  }

  /** Writing s[..pos] at addr and then the next k bytes of s right behind
      them writes s[..pos + k]. */
  lemma SplicedCompose(c0: seq<Byte>, c1: seq<Byte>, c2: seq<Byte>, addr: nat, s: seq<Byte>, pos: nat, k: nat, at: nat)
    requires pos + k <= |s| && addr + pos + k <= |c0| && at <= |c1|
    requires k > 0 ==> at == addr + pos
    requires c1 == Spliced(c0, addr, s[..pos])
    requires at + k <= |c1| && c2 == Spliced(c1, at, s[pos..pos + k])
    ensures c2 == Spliced(c0, addr, s[..pos + k])
  {
    if k == 0 {
      SplicedEmpty(c1, at);
      assert s[pos..pos + k] == [] && s[..pos] == s[..pos + k];
    } else {
      SplicedExtend(c0, addr, s[..pos], s[pos..pos + k]);
      assert s[..pos] + s[pos..pos + k] == s[..pos + k];
    }
  }

  /** Writing nothing changes nothing. */
  lemma SplicedEmpty(c: seq<Byte>, at: nat)
    requires at <= |c|
    ensures Spliced(c, at, []) == c
  {
  }

  /** Re-programming the block lo..hi with its own bytes around d writes d. */
  lemma SpliceInside(c: seq<Byte>, lo: nat, hi: nat, at: nat, d: seq<Byte>)
    requires lo <= at && at + |d| <= hi <= |c|
    ensures c[..lo] + (c[lo..at] + d + c[at + |d|..hi]) + c[hi..] == Spliced(c, at, d)
  {
    assert c[..at] == c[..lo] + c[lo..at];
    assert c[at + |d|..] == c[at + |d|..hi] + c[hi..];
  }

  /** The arithmetic of the corrected partition that flash_write's three
      steps rely on: they take len bytes between them, the middle and tail
      sectors are sector aligned and inside the chip, and the middle
      sectors start right behind the head's bytes whenever bytes remain. */
  lemma WriteLayout(addr: nat, len: nat)
    requires addr + len <= FLASH_SIZE
    ensures var p := Partition(addr, len);
            var f, b := Fill(p, len), MidStart(p);
            && f + p.mid * SECTOR_SIZE + p.tail == len
            && b % SECTOR_SIZE == 0 && (b + p.mid * SECTOR_SIZE) % SECTOR_SIZE == 0
            && b + p.mid * SECTOR_SIZE + p.tail <= FLASH_SIZE
            && (f < len ==> b == addr + f)
            && p.tail < SECTOR_SIZE
  {
    var p := Partition(addr, len);
    PartitionCovers(addr, len);
    var f, b := Fill(p, len), MidStart(p);
    if p.head > 0 {
      AlignedRoom(p.start);
    }
    assert (b + p.mid * SECTOR_SIZE) % SECTOR_SIZE == 0 by {
      var q := b / SECTOR_SIZE;
      assert b + p.mid * SECTOR_SIZE == (q + p.mid) * SECTOR_SIZE;
    }
  }

  /** A sector base below the end of the chip leaves room for the sector. */
  lemma AlignedRoom(a: nat)
    requires a % SECTOR_SIZE == 0 && a < FLASH_SIZE
    ensures a + SECTOR_SIZE <= FLASH_SIZE
  {
    var q := a / SECTOR_SIZE;
    assert a == q * SECTOR_SIZE;
    assert q < 4096;
  }

  /** The commands of n whole sectors re-programmed from base on. */
  function MidOps(base: nat, n: nat): (r: seq<FlashOp>)
    ensures |r| == n * (PAGES_PER_SECTOR + 1)
  {
    if n == 0 then [] else MidOps(base, n - 1) + SectorCmds(base + (n - 1) * SECTOR_SIZE)
  }

  /** One more whole sector is SECTOR_SIZE more bytes, still within n. */
  lemma SectorsStep(i: nat, n: nat)
    requires i < n
    ensures (i + 1) * SECTOR_SIZE == i * SECTOR_SIZE + SECTOR_SIZE
    ensures i * SECTOR_SIZE + SECTOR_SIZE <= n * SECTOR_SIZE
  {
  }

  /** i sectors past an aligned base is aligned. */
  lemma AlignedStep(base: nat, i: nat)
    requires base % SECTOR_SIZE == 0
    ensures (base + i * SECTOR_SIZE) % SECTOR_SIZE == 0
  {
    var q := base / SECTOR_SIZE;
    assert base + i * SECTOR_SIZE == (q + i) * SECTOR_SIZE;
  }

  lemma MidOpsStep(base: nat, i: nat)
    ensures MidOps(base, i + 1) == MidOps(base, i) + SectorCmds(base + i * SECTOR_SIZE)
  {
  }

  /** Where the middle sectors start: past the head sector, if any. */
  function MidStart(p: Layout): nat {
    if p.head > 0 then p.start + SECTOR_SIZE else p.start
  }

  /** The head sector's read and re-program. */
  function HeadOps(p: Layout): seq<FlashOp> {
    if p.head > 0 then [ReadOp(p.start)] + SectorCmds(p.start) else []
  }

  /** The tail sector's read of the bytes past the tail, and its re-program. */
  function TailOps(p: Layout): seq<FlashOp> {
    var base := MidStart(p) + p.mid * SECTOR_SIZE;
    if p.tail > 0 then [ReadOp(base + p.tail)] + SectorCmds(base) else []
  }

  /** Every command flash_write sends, in order: the head sector's read and
      re-program, each middle sector's re-program, then the tail sector's
      read and re-program. */
  function WriteOps(addr: nat, len: nat): (r: seq<FlashOp>)
  {
    var p := Partition(addr, len);
    HeadOps(p) + MidOps(MidStart(p), p.mid) + TailOps(p)
  }
}
