/**
 Octets, the fixed-width integers of the C source, and the two byte orders.
 The host is little-endian; the wire is big-endian.  An in-place swap of an
 n-octet field is a reversal of its octets, so a field read little-endian
 after the swap is the field read big-endian before it.
 */
module Octets {
  type octet = x: int | 0 <= x < 0x100
  type u16 = x: int | 0 <= x < 0x1_0000
  type u32 = x: int | 0 <= x < 0x1_0000_0000
  type u64 = x: int | 0 <= x < 0x1_0000_0000_0000_0000
  type i16 = x: int | -0x8000 <= x < 0x8000
  type i32 = x: int | -0x8000_0000 <= x < 0x8000_0000
  type i64 = x: int | -0x8000_0000_0000_0000 <= x < 0x8000_0000_0000_0000

  // Host (little-endian) loads.

  function Get16(s: seq<octet>, o: nat): u16
    requires o + 2 <= |s|
  {
    var lo: int, hi: int := s[o], s[o + 1];
    lo + 0x100 * hi
  }

  function Get32(s: seq<octet>, o: nat): u32
    requires o + 4 <= |s|
  {
    Get16(s, o) + 0x1_0000 * Get16(s, o + 2)
  }

  function Get64(s: seq<octet>, o: nat): u64
    requires o + 8 <= |s|
  {
    Get32(s, o) + 0x1_0000_0000 * Get32(s, o + 4)
  }

  // Host (little-endian) stores: the octets of a value, lowest first.

  function Put16(v: u16): (r: seq<octet>)
    ensures |r| == 2 && Get16(r, 0) == v
  {
    [v % 0x100, v / 0x100]
  }

  function Put32(v: u32): (r: seq<octet>)
    ensures |r| == 4 && Get32(r, 0) == v
  {
    Put16(v % 0x1_0000) + Put16(v / 0x1_0000)
  }

  function Put64(v: u64): (r: seq<octet>)
    ensures |r| == 8 && Get64(r, 0) == v
  {
    Put32(v % 0x1_0000_0000) + Put32(v / 0x1_0000_0000)
  }

  // Two's complement: the bit pattern of a signed value, and back.

  function Bits64(i: i64): (u: u64)
    ensures Signed64(u) == i
  {
    if i < 0 then i + 0x1_0000_0000_0000_0000 else i
  }

  function Signed64(u: u64): i64 {
    if u < 0x8000_0000_0000_0000 then u else u - 0x1_0000_0000_0000_0000
  }

  // Wire (big-endian) loads: the reference reading of a field on the wire.

  function Wire16(s: seq<octet>, o: nat): u16
    requires o + 2 <= |s|
  {
    var hi: int, lo: int := s[o], s[o + 1];
    0x100 * hi + lo
  }

  function Wire32(s: seq<octet>, o: nat): u32
    requires o + 4 <= |s|
  {
    0x1_0000 * Wire16(s, o) + Wire16(s, o + 2)
  }

  function Wire48(s: seq<octet>, o: nat): int
    requires o + 6 <= |s|
  {
    0x1_0000_0000 * Wire16(s, o) + Wire32(s, o + 2)
  }

  function Wire64(s: seq<octet>, o: nat): u64
    requires o + 8 <= |s|
  {
    0x1_0000_0000 * Wire32(s, o) + Wire32(s, o + 4)
  }

  /** The position that position k of a message swaps with when the n octets at o are reversed. */
  function Flip(k: int, o: nat, n: nat): int {
    if o <= k < o + n then 2 * o + n - 1 - k else k
  }

  /** t holds at o the n octets of s at o, in reverse. */
  ghost predicate Reversed(s: seq<octet>, t: seq<octet>, o: nat, n: nat) {
    |s| == |t| && o + n <= |s| && forall k :: o <= k < o + n ==> t[k] == s[Flip(k, o, n)]
  }

  /** A load in host order after a swap is the load in wire order before it, and the reverse. */
  lemma Swapped16(s: seq<octet>, t: seq<octet>, o: nat)
    requires Reversed(s, t, o, 2)
    ensures Get16(t, o) == Wire16(s, o) && Wire16(t, o) == Get16(s, o)
  {
    assert t[o] == s[o + 1] && t[o + 1] == s[o];
  }

  lemma Swapped32(s: seq<octet>, t: seq<octet>, o: nat)
    requires Reversed(s, t, o, 4)
    ensures Get32(t, o) == Wire32(s, o) && Wire32(t, o) == Get32(s, o)
  {
    assert t[o] == s[o + 3] && t[o + 1] == s[o + 2] && t[o + 2] == s[o + 1] && t[o + 3] == s[o];
  }

  lemma Swapped64(s: seq<octet>, t: seq<octet>, o: nat)
    requires Reversed(s, t, o, 8)
    ensures Get64(t, o) == Wire64(s, o) && Wire64(t, o) == Get64(s, o)
  {
    hide Get32, Wire32;
    assert t[o] == s[o + 7] && t[o + 1] == s[o + 6] && t[o + 2] == s[o + 5] && t[o + 3] == s[o + 4];
    assert t[o + 4] == s[o + 3] && t[o + 5] == s[o + 2] && t[o + 6] == s[o + 1] && t[o + 7] == s[o];
    Crossed32(s, t, o, o + 4);
    Crossed32(s, t, o + 4, o);
  }

  /** Four octets of t at a are those of s at b, in reverse. */
  lemma Crossed32(s: seq<octet>, t: seq<octet>, a: nat, b: nat)
    requires b + 4 <= |s| && a + 4 <= |t|
    requires t[a] == s[b + 3] && t[a + 1] == s[b + 2] && t[a + 2] == s[b + 1] && t[a + 3] == s[b]
    ensures Get32(t, a) == Wire32(s, b) && Wire32(t, a) == Get32(s, b)
  {
  }
}
