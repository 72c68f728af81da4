/** The byte ring buffer of fifo.c: a caller-supplied array with a write
    index, a read index and a count of queued bytes. */
module Fifo {
  import opened Uint
  import opened CString

  /** An index that ran at most one lap past the end, brought back into
      range by one subtraction (the source's replacement for `%`). */
  function Wrap(x: nat, n: nat): (r: nat)
    requires x < 2 * n
    ensures r < n && (r == x || r == x - n)
  {
    if x >= n then x - n else x
  }

  /** The n bytes of the ring b that start at `from`, crossing the end once. */
  function RingSeq(b: seq<Byte>, from: nat, n: nat): (r: seq<Byte>)
    requires from < |b| && n <= |b|
    ensures |r| == n
  {
    seq(n, i requires 0 <= i < n => b[Wrap(from + i, |b|)])
  }

  /** The ring b with d written from position `at` on, crossing the end once. */
  function RingWrite(b: seq<Byte>, at: nat, d: seq<Byte>): (r: seq<Byte>)
    requires at < |b| && |d| <= |b|
    ensures |r| == |b|
  {
    seq(|b|, k requires 0 <= k < |b| =>
      var off := if k >= at then k - at else k + |b| - at;
      if off < |d| then d[off] else b[k])
  }

  /** Writing d at the position just past the n queued bytes that start at
      `from` queues d behind them and keeps them as they were. */
  lemma {:induction false} RingWriteAppends(b: seq<Byte>, from: nat, n: nat, d: seq<Byte>)
    requires from < |b| && n + |d| <= |b|
    ensures RingSeq(RingWrite(b, Wrap(from + n, |b|), d), from, n + |d|) == RingSeq(b, from, n) + d
  {
    var at := Wrap(from + n, |b|);
    var w := RingWrite(b, at, d);
    forall i | 0 <= i < n + |d|
      ensures RingSeq(w, from, n + |d|)[i] == (RingSeq(b, from, n) + d)[i]
    {
      var p := Wrap(from + i, |b|);
      assert RingSeq(w, from, n + |d|)[i] == w[p];
      if i < n {
        assert RingSeq(b, from, n)[i] == b[p];
      }
    }
  }

  /** Writing nothing leaves the ring as it was. */
  lemma RingWriteNothing(b: seq<Byte>, at: nat)
    requires at < |b|
    ensures RingWrite(b, at, []) == b
  {
  }

  /** Dropping the first r of the n queued bytes that start at `from`
      leaves the rest, now starting r positions later. */
  lemma {:induction false} RingSeqDrop(b: seq<Byte>, from: nat, n: nat, r: nat)
    requires from < |b| && r <= n <= |b|
    ensures RingSeq(b, from, n) == RingSeq(b, from, r) + RingSeq(b, Wrap(from + r, |b|), n - r)
  {
    var rest := RingSeq(b, Wrap(from + r, |b|), n - r);
    forall i | 0 <= i < n
      ensures RingSeq(b, from, n)[i] == (RingSeq(b, from, r) + rest)[i]
    {
      if i < r {
        assert RingSeq(b, from, r)[i] == b[Wrap(from + i, |b|)];
      } else {
        assert rest[i - r] == b[Wrap(Wrap(from + r, |b|) + (i - r), |b|)];
        assert Wrap(Wrap(from + r, |b|) + (i - r), |b|) == Wrap(from + i, |b|);
      }
      assert RingSeq(b, from, n)[i] == b[Wrap(from + i, |b|)];
    }
  }

  /** The n ring bytes from `from` are one slice when they stop before the
      end, else the tail of the buffer followed by its head. */
  lemma {:induction false} RingSeqParts(b: seq<Byte>, from: nat, n: nat)
    requires from < |b| && n <= |b|
    ensures from + n <= |b| ==> RingSeq(b, from, n) == b[from..from + n]
    ensures from + n > |b| ==> RingSeq(b, from, n) == b[from..] + b[..from + n - |b|]
  {
    if from + n <= |b| {
      forall i | 0 <= i < n
        ensures RingSeq(b, from, n)[i] == b[from..from + n][i]
      {
        assert RingSeq(b, from, n)[i] == b[Wrap(from + i, |b|)];
      }
    } else {
      forall i | 0 <= i < n
        ensures RingSeq(b, from, n)[i] == (b[from..] + b[..from + n - |b|])[i]
      {
        assert RingSeq(b, from, n)[i] == b[Wrap(from + i, |b|)];
      }
    }
  }

  /** The largest buffer whose indices never wrap a uint32 when advanced
      (index + count < 2 * buffer_len). */
  const MAX_BUFFER_LEN: nat := 0x8000_0000

  /** A fifo_st: the buffer and buffer_len (its length), the indices in and
      out, and len, the number of queued bytes. */
  class Fifo {
    const buffer: array<Byte>
    var inIdx: uint32
    var outIdx: uint32
    var len: uint32

    /** The invariant the diagram in fifo.c describes: both indices inside
        the buffer, at most a full buffer queued, and the write index len
        positions past the read index. */
    ghost predicate Valid()
      reads this
    {
      && 0 < buffer.Length <= MAX_BUFFER_LEN
      && inIdx < buffer.Length && outIdx < buffer.Length && len <= buffer.Length
      && inIdx == Wrap(outIdx + len, buffer.Length)
    }

    /** The queued bytes, oldest first. */
    ghost function Contents(): seq<Byte>
      reads this, buffer
      requires Valid()
    {
      RingSeq(buffer[..], outIdx, len)
    }

    /** An empty queue over a zeroed buffer of n bytes. */
    constructor(n: nat)
      requires 0 < n <= MAX_BUFFER_LEN
      ensures Valid() && Contents() == [] && buffer.Length == n && fresh(buffer)
    {
      buffer := new Byte[n](_ => 0);
      inIdx, outIdx, len := 0, 0, 0;
    }

    /** fifo_in: queues as many of the first n bytes of src as fit and
        returns how many. A count beyond the buffer length is discarded
        first, as the source does. */
    method In(src: array<Byte>, n: uint32) returns (r: uint32)
      requires 0 < buffer.Length <= MAX_BUFFER_LEN && inIdx < buffer.Length
      requires n <= src.Length && src != buffer
      modifies this, buffer
      ensures var held := if old(len) <= buffer.Length then old(len) else 0;
              r == Min(n, buffer.Length - held) && len == held + r
      ensures inIdx == Wrap(old(inIdx) + r, buffer.Length) && outIdx == old(outIdx)
      ensures buffer[..] == RingWrite(old(buffer[..]), old(inIdx), src[..r])
      ensures r == 0 ==> buffer[..] == old(buffer[..]) && inIdx == old(inIdx)
      ensures old(Valid()) ==> Valid() && Contents() == old(Contents()) + src[..r]
    {
      hide RingSeq, RingWrite;
      var m := n;
      if m > buffer.Length as uint32 {
        m := buffer.Length as uint32;
      }
      var space: uint32;
      if buffer.Length >= len as nat {
        space := buffer.Length as uint32 - len;
      } else {
        len := 0;
        space := buffer.Length as uint32;
      }
      m := if m >= space then space else m;
      if m == 0 {
        RingWriteNothing(buffer[..], inIdx as nat);
        assert src[..0] == [];
        return 0;
      }
      ghost var b0 := buffer[..];
      CopyIn(src, m);
      inIdx := inIdx + m;
      if inIdx as nat >= buffer.Length {
        inIdx := inIdx - buffer.Length as uint32;
      }
      len := len + m;
      r := m;
      if old(Valid()) {
        RingWriteAppends(b0, outIdx, old(len) as nat, src[..r]);
      }
    }

    /** fifo_out: moves the oldest min(n, len) queued bytes into dst in
        order, following them across the end of the buffer, and returns
        how many. */
    method Out(dst: array<Byte>, n: uint32) returns (r: uint32)
      requires 0 < buffer.Length <= MAX_BUFFER_LEN && outIdx < buffer.Length && len <= buffer.Length
      requires n <= dst.Length && dst != buffer
      modifies this, dst
      ensures r == Min(n, old(len)) && len == old(len) - r
      ensures outIdx == Wrap(old(outIdx) + r, buffer.Length) && inIdx == old(inIdx)
      ensures buffer[..] == old(buffer[..])
      ensures dst[..r] == RingSeq(buffer[..], old(outIdx), r) && dst[r..] == old(dst[r..])
      ensures old(Valid()) ==> Valid() && old(Contents()) == dst[..r] + Contents()
    {
      if len == 0 {
        return 0;
      }
      var m := if len > n then n else len;
      CopyOut(dst, m);
      outIdx := outIdx + m;
      if outIdx as nat >= buffer.Length {
        outIdx := outIdx - buffer.Length as uint32;
      }
      len := len - m;
      r := m;
      if old(Valid()) {
        RingSeqDrop(buffer[..], old(outIdx) as nat, old(len) as nat, r as nat);
      }
    }

    /** The two-part copy of fifo_in: up to the end of the buffer from in,
        then the rest from the start. */
    method CopyIn(src: array<Byte>, m: uint32)
      requires 0 < buffer.Length <= MAX_BUFFER_LEN && inIdx < buffer.Length
      requires m as nat <= buffer.Length && m <= src.Length && src != buffer
      modifies buffer
      ensures buffer[..] == RingWrite(old(buffer[..]), inIdx, src[..m])
    {
      var space := buffer.Length as uint32 - inIdx;
      if space >= m {
        Memcpy(buffer, inIdx, src, 0, m);
        forall k | inIdx as nat <= k < inIdx as nat + m as nat
          ensures buffer[k] == src[k - inIdx]
        {
          assert buffer[inIdx..inIdx + m][k - inIdx] == buffer[k];
        }
      } else {
        CopyInWrapped(src, m, space);
      }
      forall k | 0 <= k < buffer.Length
        ensures buffer[k] == RingWrite(old(buffer[..]), inIdx, src[..m])[k]
      {
      }
    }

    /** The wrapped case of CopyIn: src[..space] fills the buffer from in to
        its end and the remaining m - space bytes go to its start. */
    method CopyInWrapped(src: array<Byte>, m: uint32, space: uint32)
      requires 0 < buffer.Length <= MAX_BUFFER_LEN && inIdx < buffer.Length
      requires m as nat <= buffer.Length && m <= src.Length && src != buffer
      requires space as nat == buffer.Length - inIdx as nat && space < m
      modifies buffer
      ensures forall k :: inIdx as nat <= k < buffer.Length ==> buffer[k] == src[k - inIdx]
      ensures forall k :: 0 <= k < m as nat - space as nat ==> buffer[k] == src[k + space]
      ensures forall k :: m as nat - space as nat <= k < inIdx as nat ==> buffer[k] == old(buffer[k])
    {
      Memcpy(buffer, inIdx, src, 0, space);
      ghost var b1 := buffer[..];
      Memcpy(buffer, 0, src, space, m - space);
      forall k | inIdx as nat <= k < buffer.Length
        ensures buffer[k] == src[k - inIdx]
      {
        assert buffer[k] == b1[k];
        assert b1[inIdx..inIdx + space][k - inIdx] == b1[k];
      }
      forall k | 0 <= k < m as nat - space as nat
        ensures buffer[k] == src[k + space]
      {
        assert buffer[0..m - space][k] == buffer[k];
      }
    }

    /** The two-part copy of fifo_out: up to the end of the buffer from out,
        then the rest from the start. */
    method CopyOut(dst: array<Byte>, m: uint32)
      requires 0 < buffer.Length <= MAX_BUFFER_LEN && outIdx < buffer.Length
      requires m as nat <= buffer.Length && m <= dst.Length && dst != buffer
      ensures dst[..m] == RingSeq(buffer[..], outIdx, m) && dst[m..] == old(dst[m..])
      modifies dst
    {
      RingSeqParts(buffer[..], outIdx as nat, m as nat);
      var space := buffer.Length as uint32 - outIdx;
      if space >= m {
        Memcpy(dst, 0, buffer, outIdx, m);
        assert dst[..m] == dst[0..m];
        assert dst[m..] == old(dst[m..]) by {
          forall i | m as nat <= i < dst.Length
            ensures dst[i] == old(dst[i])
          {
          }
        }
      } else {
        CopyOutWrapped(dst, m, space);
      }
    }

    /** The wrapped case of CopyOut: the space bytes up to the end of the
        buffer, then m - space from its start. */
    method CopyOutWrapped(dst: array<Byte>, m: uint32, space: uint32)
      requires 0 < buffer.Length <= MAX_BUFFER_LEN && outIdx < buffer.Length
      requires m as nat <= buffer.Length && m <= dst.Length && dst != buffer
      requires space as nat == buffer.Length - outIdx as nat && space < m
      ensures dst[..m] == buffer[outIdx..] + buffer[..m - space] && dst[m..] == old(dst[m..])
      modifies dst
    {
      Memcpy(dst, 0, buffer, outIdx, space);
      assert dst[0..space] == buffer[outIdx..];
      ghost var d1 := dst[..];
      Memcpy(dst, space, buffer, 0, m - space);
      assert dst[space..m] == buffer[..m - space];
      assert dst[..space] == d1[0..space] by {
        forall i | 0 <= i < space
          ensures dst[i] == d1[i]
        {
        }
      }
      assert dst[..m] == dst[..space] + dst[space..m];
      assert dst[m..] == old(dst[m..]) by {
        forall i | m as nat <= i < dst.Length
          ensures dst[i] == old(dst[i])
        {
        }
      }
    }

    /** fifo_getlen: the number of queued bytes. */
    function GetLen(): (r: uint32)
      reads this
      ensures Valid() ==> r as nat == |Contents()|
    {
      len
    }

    /** fifo_clean: empties the queue; the buffer keeps its bytes. */
    method Clean()
      modifies this
      ensures inIdx == 0 && outIdx == 0 && len == 0
      ensures 0 < buffer.Length <= MAX_BUFFER_LEN ==> Valid() && Contents() == []
    {
      len := 0;
      inIdx := 0;
      outIdx := 0;
    }

    /** fifo_getfree: the room left, with uint32 wrap-around when the count
        is beyond the buffer length. */
    function GetFree(): (r: uint32)
      reads this
      requires buffer.Length < U32_LIMIT
      ensures Valid() ==> r as nat == buffer.Length - |Contents()|
      ensures len > buffer.Length ==> r == buffer.Length - len + U32_LIMIT
    {
      Sub32(buffer.Length, len)
    }
  }
}
