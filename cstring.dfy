/** The firmware's freestanding memory and string routines (string.c).
    Pointers become an array plus an offset; a read-only C string is a
    `seq<Byte>` that holds its NUL terminator. */
module CString {
  import opened Uint

  /** Index of the first NUL byte of a C string. */
  function CLen(s: seq<Byte>): (r: nat)
    requires 0 in s
    ensures r < |s| && s[r] == 0
    ensures forall i :: 0 <= i < r ==> s[i] != 0
  {
    if s[0] == 0 then 0 else CLen(s[1..]) + 1
  }

  /** The at most n bytes that a bounded comparison of C strings examines
      before the terminator. */
  function NPrefix(s: seq<Byte>, n: nat): (p: seq<Byte>)
    requires 0 in s
    ensures |p| == Min(n, CLen(s)) && p == s[..|p|]
  {
    s[..Min(n, CLen(s))]
  }

  /** memcpy: byte i of the destination becomes byte i of the source, for
      every i < n, copying forwards; overlapping regions of one array are
      left out, as C leaves them undefined. */
  method Memcpy(dst: array<Byte>, dOff: nat, src: array<Byte>, sOff: nat, n: nat)
    requires dOff + n <= dst.Length && sOff + n <= src.Length
    requires dst == src ==> dOff + n <= sOff || sOff + n <= dOff
    modifies dst
    ensures dst[dOff..dOff + n] == old(src[sOff..sOff + n])
    ensures forall k :: 0 <= k < dst.Length && !(dOff <= k < dOff + n) ==> dst[k] == old(dst[k])
  {
    var i := 0;
    while i < n
      invariant 0 <= i <= n
      invariant forall k :: dOff <= k < dOff + i ==> dst[k] == old(src[k - dOff + sOff])
      invariant forall k :: 0 <= k < dst.Length && !(dOff <= k < dOff + i) ==> dst[k] == old(dst[k])
    {
      dst[dOff + i] := src[sOff + i];
      i := i + 1;
    }
  }

  /** memset: every byte of p[off..off+n] becomes `(uint8_t)c`. */
  method Memset(p: array<Byte>, off: nat, c: int, n: nat)
    requires off + n <= p.Length
    modifies p
    ensures forall k :: off <= k < off + n ==> p[k] == ToByte(c)
    ensures forall k :: 0 <= k < p.Length && !(off <= k < off + n) ==> p[k] == old(p[k])
  {
    var i := 0;
    while i < n
      invariant 0 <= i <= n
      invariant forall k :: off <= k < off + i ==> p[k] == ToByte(c)
      invariant forall k :: 0 <= k < p.Length && !(off <= k < off + i) ==> p[k] == old(p[k])
    {
      p[off + i] := ToByte(c);
      i := i + 1;
    }
  }

  /** strlen: the index of the first NUL byte. */
  method Strlen(s: seq<Byte>) returns (r: nat)
    requires 0 in s
    ensures r < |s| && s[r] == 0
    ensures forall i :: 0 <= i < r ==> s[i] != 0
  {
    var pe := 0;
    while s[pe] != 0
      invariant pe <= CLen(s)
      invariant forall i :: 0 <= i < pe ==> s[i] != 0
      decreases CLen(s) - pe
    {
      pe := pe + 1;
    }
    r := pe;
  }

  /** What string.c's strncmp computes: it tests the FIRST bytes of both
      strings n times without advancing, so only those bytes decide. */
  function FirstByteOrder(s1: seq<Byte>, s2: seq<Byte>, n: nat): (r: int)
    requires n > 0 ==> |s1| > 0 && |s2| > 0
  {
    if n == 0 then 0
    else if s1[0] > s2[0] then 1
    else if s1[0] < s2[0] then -1
    else 0
  }

  /** strncmp as written (string.c): the loop never moves s1 or s2. */
  method Strncmp(s1: seq<Byte>, s2: seq<Byte>, n: nat) returns (r: int)
    requires n > 0 ==> |s1| > 0 && |s2| > 0
    ensures r == FirstByteOrder(s1, s2, n)
    ensures n > 0 ==> (r == 0 <==> s1[0] == s2[0]) && (r == 1 <==> s1[0] > s2[0])
  {
    for i := 0 to n
      invariant i > 0 ==> s1[0] == s2[0]
    {
      if s1[0] > s2[0] {
        return 1;
      } else if s1[0] < s2[0] {
        return -1;
      }
    }
    return 0;
  }

  /** The counterexample: with n = 3, "hxx" compares equal to "hex", which
      is how the shell's `printmem` accepts any mode word starting with 'h'
      (0x68 'h', 0x65 'e', 0x78 'x'). */
  lemma StrncmpComparesFirstByteOnly()
    ensures FirstByteOrder([0x68, 0x78, 0x78, 0], [0x68, 0x65, 0x78, 0], 3) == 0
    ensures NPrefix([0x68, 0x78, 0x78, 0], 3) != NPrefix([0x68, 0x65, 0x78, 0], 3)
  {
    var a: seq<Byte> := [0x68, 0x78, 0x78, 0];
    var b: seq<Byte> := [0x68, 0x65, 0x78, 0];
    assert a[1..][1..][1..] == [0] && b[1..][1..][1..] == [0];
    assert CLen(a) == 3 && CLen(b) == 3;
    assert NPrefix(a, 3)[1] != NPrefix(b, 3)[1];
  }

  /** strncmp as evidently intended: compare byte by byte, stop at the first
      difference, at the terminator or after n bytes, and answer 1, -1 or 0. */
  method StrncmpFixed(s1: seq<Byte>, s2: seq<Byte>, n: nat) returns (r: int)
    requires 0 in s1 && 0 in s2
    ensures r in {-1, 0, 1}
    ensures r == 0 <==> NPrefix(s1, n) == NPrefix(s2, n)
    ensures r != 0 ==> exists i :: 0 <= i < Min(n, Min(CLen(s1), CLen(s2)) + 1) &&
                                   s1[..i] == s2[..i] && (r == 1 <==> s1[i] > s2[i]) && s1[i] != s2[i]
  {
    var i := 0;
    while i < n
      invariant i <= n && i <= CLen(s1) && i <= CLen(s2)
      invariant s1[..i] == s2[..i]
    {
      if s1[i] > s2[i] {
        assert NPrefix(s1, n) != NPrefix(s2, n) by { PrefixesDiffer(s1, s2, n, i); }
        return 1;
      } else if s1[i] < s2[i] {
        assert NPrefix(s1, n) != NPrefix(s2, n) by { PrefixesDiffer(s1, s2, n, i); }
        return -1;
      } else if s1[i] == 0 {
        assert CLen(s1) == i && CLen(s2) == i;
        return 0;
      }
      assert s1[..i + 1] == s1[..i] + [s1[i]] && s2[..i + 1] == s2[..i] + [s2[i]];
      i := i + 1;
    }
    return 0;
  }

  lemma PrefixesDiffer(s1: seq<Byte>, s2: seq<Byte>, n: nat, i: nat)
    requires 0 in s1 && 0 in s2
    requires i < n && i <= CLen(s1) && i <= CLen(s2) && s1[i] != s2[i]
    ensures NPrefix(s1, n) != NPrefix(s2, n)
  {
    var p1, p2 := NPrefix(s1, n), NPrefix(s2, n);
    if CLen(s1) == i {
      assert CLen(s2) > i;
      assert |p1| == i < |p2|;
    } else if CLen(s2) == i {
      assert |p2| == i < |p1|;
    } else {
      assert p1[i] == s1[i] && p2[i] == s2[i];
    }
  }
}
