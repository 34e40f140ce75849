/**
 The buffer and message objects, in place: every octet of a message lives in
 the buffer's array, and each call is proved to do what Message.dfy says.
 */
module MessageObject {
  import opened Octets
  import opened Wrappers
  import opened Wire
  import opened Message

  /** struct buffer_t: a fixed array of octets and the length of the data in it. */
  class Buffer {
    const data: array<octet>
    var len: nat

    ghost predicate Valid()
      reads this
    {
      len <= data.Length <= MAX_MESSAGE
    }

    constructor (size: nat)
      requires 0 < size <= MAX_MESSAGE
      ensures Valid() && fresh(data) && data.Length == size && len == 0
    {
      data := new octet[size];
      len := 0;
    }

    method SetLen(n: nat) returns (ok: bool)
      requires Valid()
      modifies this
      ensures Valid() && ok == (n <= data.Length)
      ensures len == if ok then n else old(len)
    {
      if n > data.Length {
        return false;
      }
      len := n;
      return true;
    }
  }

  // Fields of the array.

  function Load16(b: array<octet>, o: nat): (v: u16)
    requires o + 2 <= b.Length
    reads b
    ensures v == Get16(b[..], o)
  {
    var lo: int, hi: int := b[o], b[o + 1];
    lo + 0x100 * hi
  }

  method Store(b: array<octet>, at: nat, s: seq<octet>)
    requires at + |s| <= b.Length
    modifies b
    ensures b[..] == Splice(old(b[..]), at, s)
  {
    forall k | 0 <= k < |s| {
      b[at + k] := s[k];
    }
  }

  /** The octets with the n-octet field at o reversed. */
  function Swapped(s: seq<octet>, o: nat, n: nat): (r: seq<octet>)
    requires o + n <= |s|
    ensures |r| == |s|
  {
    seq(|s|, i requires 0 <= i < |s| => s[Flip(i, o, n)])
  }

  /** htons, htonl and htonll of a field in place; their inverses are the same. */
  method SwapField(b: array<octet>, o: nat, n: nat)
    requires o + n <= b.Length
    modifies b
    ensures b[..] == Swapped(old(b[..]), o, n)
  {
    forall k | 0 <= k < n {
      b[o + k] := b[o + n - 1 - k];
    }
    assert forall i :: 0 <= i < b.Length ==> b[i] == old(b[Flip(i, o, n)]);
  }

  /** cpu_to_net_ts and net_to_cpu_ts: high, low, nanoseconds. */
  method SwapTs(b: array<octet>, o: nat)
    requires o + 10 <= b.Length
    modifies b
    ensures b[..] == SwappedTs(old(b[..]), o)
  {
    SwapField(b, o, 2);
    SwapField(b, o + 2, 4);
    SwapField(b, o + 6, 4);
  }

  function SwappedTs(s: seq<octet>, o: nat): (r: seq<octet>)
    requires o + 10 <= |s|
    ensures |r| == |s|
  {
    Swapped(Swapped(Swapped(s, o, 2), o + 2, 4), o + 6, 4)
  }

  /** r is s with the fields after the header of the TLV at at swapped. */
  ghost predicate BodySwapped(s: seq<octet>, r: seq<octet>, at: nat, id: u16)
    requires at + MinTlvSize(id) <= |s|
  {
    && |r| == |s|
    && forall i {:trigger r[i]} :: 0 <= i < |s| ==>
         r[i] == if at + 4 <= i < at + MinTlvSize(id) && 0 <= TlvFlip(id, i - at) < MinTlvSize(id)
                 then s[at + TlvFlip(id, i - at)] else s[i]
  }

  function HeaderSwapped(s: seq<octet>, at: nat): (r: seq<octet>)
    requires at + 4 <= |s|
    ensures |r| == |s|
  {
    Swapped(Swapped(s, at, 2), at + 2, 2)
  }

  lemma FlipInside(id: u16, k: nat, len: nat)
    requires k < len && TLV_HDR <= len && MinTlvSize(id) <= len && MinTlvSize(id) != 0
    ensures 0 <= TlvFlip(id, k) < len
    ensures k < 4 ==> TlvFlip(id, k) == [1, 0, 3, 2][k]
    ensures 4 <= k < MinTlvSize(id) ==> 4 <= TlvFlip(id, k) < MinTlvSize(id)
    ensures MinTlvSize(id) <= k ==> TlvFlip(id, k) == k
  {
  }

  lemma HeaderSwappedAt(s: seq<octet>, at: nat)
    requires at + 4 <= |s|
    ensures var r := HeaderSwapped(s, at);
      && r[at] == s[at + 1] && r[at + 1] == s[at] && r[at + 2] == s[at + 3] && r[at + 3] == s[at + 2]
      && forall i :: 0 <= i < |s| && (i < at || at + 4 <= i) ==> r[i] == s[i]
  {
  }

  /** Body then header, or header then body: either way the whole TLV is swapped. */
  lemma SwapsAreSwapTlv(s: seq<octet>, m: seq<octet>, r: seq<octet>, at: nat, len: nat, id: u16)
    requires at + len <= |s| == |r| == |m| && TLV_HDR <= len && MinTlvSize(id) <= len && MinTlvSize(id) != 0
    requires || (BodySwapped(s, m, at, id) && r == HeaderSwapped(m, at))
             || (m == HeaderSwapped(s, at) && BodySwapped(m, r, at, id))
    ensures r == Splice(s, at, SwapTlv(id, s[at..at + len]))
  {
    hide TlvFlip, MinTlvSize, HeaderSwapped;
    HeaderSwappedAt(s, at);
    HeaderSwappedAt(m, at);
    var t := s[at..at + len];
    var x := Splice(s, at, SwapTlv(id, t));
    forall i | 0 <= i < |s|
      ensures r[i] == x[i]
    {
      if at <= i < at + len {
        FlipInside(id, i - at, len);
        var k := TlvFlip(id, i - at);
        assert x[i] == SwapTlv(id, t)[i - at] == t[k] == s[at + k];
      }
    }
  }

  // The swaps of each TLV type, in the order of the source.

  lemma AltSwaps(s: seq<octet>, at: nat)
    requires at + 20 <= |s|
    ensures BodySwapped(s, Swapped(Swapped(Swapped(Swapped(s, at + 5, 4), at + 9, 4), at + 13, 2), at + 15, 4), at, ALT_TIME)
  {
  }

  lemma ResponseSwaps(s: seq<octet>, at: nat)
    requires at + 28 <= |s|
    ensures BodySwapped(s, Swapped(SwappedTs(s, at + 10), at + 20, 8), at, CSPTP_RESPONSE)
  {
  }

  lemma StatusSwaps(s: seq<octet>, at: nat)
    requires at + 32 <= |s|
    ensures BodySwapped(s,
              Swapped(Swapped(Swapped(Swapped(Swapped(s, at + 28, 2), at + 30, 2), at + 13, 2), at + 16, 2), at + 18, 2),
              at, CSPTP_STATUS)
  {
  }

  method SwapAltTime(b: array<octet>, at: nat)
    requires at + 20 <= b.Length
    modifies b
    ensures BodySwapped(old(b[..]), b[..], at, ALT_TIME)
  {
    hide Swapped, SwappedTs, BodySwapped, TlvFlip;
    AltSwaps(b[..], at);
    SwapField(b, at + 5, 4);
    SwapField(b, at + 9, 4);
    SwapField(b, at + 13, 2);
    SwapField(b, at + 15, 4);
  }

  method SwapResponse(b: array<octet>, at: nat)
    requires at + 28 <= b.Length
    modifies b
    ensures BodySwapped(old(b[..]), b[..], at, CSPTP_RESPONSE)
  {
    hide Swapped, SwappedTs, BodySwapped, TlvFlip;
    ResponseSwaps(b[..], at);
    SwapTs(b, at + 10);
    SwapField(b, at + 20, 8);
  }

  method SwapStatus(b: array<octet>, at: nat)
    requires at + 32 <= b.Length
    modifies b
    ensures BodySwapped(old(b[..]), b[..], at, CSPTP_STATUS)
  {
    hide Swapped, SwappedTs, BodySwapped, TlvFlip;
    StatusSwaps(b[..], at);
    SwapField(b, at + 28, 2);
    SwapField(b, at + 30, 2);
    SwapField(b, at + 13, 2);
    SwapField(b, at + 16, 2);
    SwapField(b, at + 18, 2);
  }

  lemma NoSwaps(s: seq<octet>, at: nat, id: u16)
    requires at + MinTlvSize(id) <= |s| && (id == CSPTP_REQUEST || id == PAD)
    ensures BodySwapped(s, s, at, id)
  {
  }

  /** Storing a type and length in network order is swapping them where they are already stored. */
  lemma StoredIsSwapped(s: seq<octet>, at: nat, id: u16, n: u16)
    requires at + 4 <= |s| && Get16(s, at) == id && Get16(s, at + 2) == n
    ensures Splice(s, at, [id / 0x100, id % 0x100, n / 0x100, n % 0x100]) == HeaderSwapped(s, at)
  {
    hide HeaderSwapped;
    HeaderSwappedAt(s, at);
    HighLow(s, at);
    HighLow(s, at + 2);
  }

  lemma HighLow(s: seq<octet>, o: nat)
    requires o + 2 <= |s|
    ensures Get16(s, o) / 0x100 == s[o + 1] && Get16(s, o) % 0x100 == s[o]
  {
  }

  /** s holds the TLV; s1 after the pad octet is zeroed; m after the body swaps; then the header is stored. */
  lemma EncodedInPlace(s: seq<octet>, s1: seq<octet>, m: seq<octet>, at: nat, len: nat, id: u16)
    requires at + len <= |s| == |s1| && NameFits(id, s[at..at + len]) && HostTlv(id, s[at..at + len])
    requires s1 == Splice(s, at, ZeroPad(id, s[at..at + len])) && BodySwapped(s1, m, at, id)
    ensures TLV_HDR <= len < TLV_HDR + 0x1_0000
    ensures var n := len - TLV_HDR;
      Splice(m, at, [id / 0x100, id % 0x100, n / 0x100, n % 0x100]) ==
      Splice(s, at, EncodeTlv(id, s[at..at + len]).1)
  {
    hide SwapTlv, Swapped, HeaderSwapped, EncodeTlv, TlvFlip;
    var t := s[at..at + len];
    assert s1[at..at + len] == ZeroPad(id, t);
    assert m[at] == s[at] == t[0] && m[at + 1] == s[at + 1] == t[1];
    assert m[at + 2] == s[at + 2] == t[2] && m[at + 3] == s[at + 3] == t[3];
    StoredIsSwapped(m, at, id, len - TLV_HDR);
    SwapsAreSwapTlv(s1, m, HeaderSwapped(m, at), at, len, id);
  }

  lemma HeaderSwappedIs(s: seq<octet>, at: nat, size: nat)
    requires TLV_HDR <= size && at + size <= |s|
    ensures HeaderSwapped(s, at) == Swapped(Swapped(s, at, 2), at + 2, 2)
    ensures HeaderSwapped(s, at) == Splice(s, at, SwapTlvHeader(s[at..at + size]))
    ensures HeaderSwapped(s, at)[at..at + size] == SwapTlvHeader(s[at..at + size])
  {
    HeaderSwappedAt(s, at);
  }

  lemma DecodedInPlace(s: seq<octet>, m: seq<octet>, r: seq<octet>, at: nat, size: nat, id: u16)
    requires TLV_HDR <= size && at + size <= |s| && MinTlvSize(id) <= size && MinTlvSize(id) != 0
    requires m == HeaderSwapped(s, at) && BodySwapped(m, r, at, id)
    ensures r == Splice(s, at, SwapTlv(id, s[at..at + size]))
  {
    hide SwapTlv, Swapped, HeaderSwapped, TlvFlip;
    SwapsAreSwapTlv(s, m, r, at, size, id);
  }

  lemma SliceLoads(s: seq<octet>, at: nat, len: nat)
    requires at + len <= |s|
    ensures forall k {:trigger Get16(s[at..at + len], k)} :: 0 <= k && k + 2 <= len ==>
              Get16(s[at..at + len], k) == Get16(s, at + k)
  {
  }

  /** Stores a zero after an odd-length name; the rounded-up length of the name. */
  method ZeroNamePad(b: array<octet>, at: nat, len: nat) returns (l: nat)
    requires 20 <= len && at + len <= b.Length && NameFits(ALT_TIME, b[at..at + len])
    modifies b
    ensures b[..] == Splice(old(b[..]), at, ZeroPad(ALT_TIME, old(b[at..at + len])))
    ensures l == MakeEven(old(b[at..at + len])[19])
  {
    l := b[at + 19];
    if l % 2 == 1 {
      b[at + 20 + l] := 0;
      l := l + 1;
    }
  }

  lemma NoNamePad(id: u16, s: seq<octet>, at: nat, len: nat)
    requires id != ALT_TIME && at + len <= |s|
    ensures Splice(s, at, ZeroPad(id, s[at..at + len])) == s
  {
  }

  /** cpu_to_net_tlv */
  method CpuToNetTlv(b: array<octet>, id: u16, at: nat, len: nat) returns (ok: bool)
    requires at + len <= b.Length && NameFits(id, b[at..at + len])
    modifies b
    ensures var e := EncodeTlv(id, old(b[at..at + len]));
      ok == e.0 && b[..] == Splice(old(b[..]), at, e.1)
  {
    hide SwapTlv, Swapped, HeaderSwapped, BodySwapped, ZeroPad, NameFits, Get16, EncodeTlv, HostLaw, MinTlvSize, HostTlv;
    ghost var s, t := b[..], b[at..at + len];
    var sz := MinTlvSize(id);
    LeastHoldsHeader(id);
    EncodeIs(id, t);
    SliceLoads(s, at, len);
    if sz == 0 || len < sz || Load16(b, at) != id || Load16(b, at + 2) + TLV_HDR != len {
      return false;
    }
    ghost var s1;
    ok, s1 := BodyToNet(b, at, len, id);
    if !ok {
      return;
    }
    EncodedInPlace(s, s1, b[..], at, len, id);
    var n: u16 := len - TLV_HDR;
    Store(b, at, [id / 0x100, id % 0x100, n / 0x100, n % 0x100]);
  }

  lemma LeastHoldsHeader(id: u16)
    ensures MinTlvSize(id) == 0 || MinTlvSize(id) >= TLV_HDR
  {
  }

  /** What cpu_to_net_tlv demands of the size of a TLV beyond its least. */
  predicate HostLaw(id: u16, t: seq<octet>)
    requires MinTlvSize(id) <= |t|
  {
    if id == ALT_TIME then |t| == 20 + MakeEven(t[19])
    else if id == CSPTP_REQUEST || id == CSPTP_RESPONSE then |t| == MinTlvSize(id)
    else if id == CSPTP_STATUS then
      AddressSize(Get16(t, 28)) == Get16(t, 30) != 0 && |t| == 32 + Get16(t, 30)
    else true
  }

  /** EncodeTlv by its two checks. */
  lemma EncodeIs(id: u16, t: seq<octet>)
    requires NameFits(id, t)
    ensures
      if MinTlvSize(id) == 0 || |t| < MinTlvSize(id) || Get16(t, 0) != id || Get16(t, 2) + TLV_HDR != |t|
      then EncodeTlv(id, t) == (false, t)
      else if !HostLaw(id, t) then EncodeTlv(id, t) == (false, ZeroPad(id, t))
      else EncodeTlv(id, t) == (true, SwapTlv(id, ZeroPad(id, t))) && HostTlv(id, t)
  {
    hide SwapTlv, TlvFlip;
  }

  /** The switch of cpu_to_net_tlv: the pad octet of a name, the size law of each type, then its swaps. */
  method BodyToNet(b: array<octet>, at: nat, len: nat, id: u16) returns (ok: bool, ghost s1: seq<octet>)
    requires at + len <= b.Length && 0 < MinTlvSize(id) <= len && NameFits(id, b[at..at + len])
    modifies b
    ensures ok == HostLaw(id, old(b[at..at + len]))
    ensures s1 == Splice(old(b[..]), at, ZeroPad(id, old(b[at..at + len])))
    ensures if ok then BodySwapped(s1, b[..], at, id) else b[..] == s1
  {
    hide SwapTlv, TlvFlip, Swapped, BodySwapped, SwappedTs, ZeroPad, Get16;
    s1 := b[..];
    SliceLoads(s1, at, len);
    if id == ALT_TIME {
      var l := ZeroNamePad(b, at, len);
      s1 := b[..];
      if len != MinTlvSize(id) + l {
        return false, s1;
      }
      SwapAltTime(b, at);
      return true, s1;
    }
    NoNamePad(id, s1, at, len);
    if id == CSPTP_RESPONSE {
      if len != MinTlvSize(id) {
        return false, s1;
      }
      SwapResponse(b, at);
    } else if id == CSPTP_STATUS {
      var alen := Load16(b, at + 30);
      var nlen := AddressSize(Load16(b, at + 28));
      if nlen == 0 || nlen != alen || len != MinTlvSize(id) + alen {
        return false, s1;
      }
      SwapStatus(b, at);
    } else {
      if id == CSPTP_REQUEST && len != MinTlvSize(id) {
        return false, s1;
      }
      NoSwaps(s1, at, id);
    }
    return true, s1;
  }

  /** net_to_cpu_tlv on the octets from at, size of them left: the accepted TLV's id and length, or None. */
  method NetToCpuTlv(b: array<octet>, at: nat, size: nat) returns (r: Option<(u16, nat)>)
    requires TLV_HDR <= size && at + size <= b.Length
    modifies b
    ensures var c := DecodeTlv(old(b[at..at + size]));
      && b[..] == Splice(old(b[..]), at, c.octets)
      && r == if c.Accepted? then Some((c.id, c.len)) else None
  {
    hide SwapTlv, Swapped, HeaderSwapped, BodySwapped, DecodeTlv, SizeLaw, MinTlvSize, SwapTlvHeader;
    ghost var s := b[..];
    SwapField(b, at, 2);
    SwapField(b, at + 2, 2);
    ghost var m := b[..];
    HeaderSwappedIs(s, at, size);
    SliceLoads(m, at, size);
    DecodeIs(s[at..at + size]);
    var id := Load16(b, at);
    var len := Load16(b, at + 2) + TLV_HDR;
    var min := MinTlvSize(id);
    if min == 0 || len < min || len > size {
      return None;
    }
    var ok := BodyToCpu(b, at, len, size, id);
    if !ok {
      return None;
    }
    DecodedInPlace(s, m, b[..], at, size, id);
    return Some((id, len));
  }

  /** What net_to_cpu_tlv demands of the size of a TLV beyond its least; h has the header swapped. */
  predicate SizeLaw(id: u16, len: nat, h: seq<octet>)
    requires MinTlvSize(id) <= |h|
  {
    if id == ALT_TIME then len == 20 + MakeEven(h[19])
    else if id == CSPTP_REQUEST || id == CSPTP_RESPONSE then len == MinTlvSize(id)
    else if id == CSPTP_STATUS then
      AddressSize(Wire16(h, 28)) == Wire16(h, 30) != 0 && len == 32 + Wire16(h, 30)
    else true
  }

  /** DecodeTlv by its two checks. */
  lemma DecodeIs(t: seq<octet>)
    requires |t| >= TLV_HDR
    ensures var h := SwapTlvHeader(t);
      var id, len := Get16(h, 0), Get16(h, 2) + TLV_HDR;
      if MinTlvSize(id) == 0 || len < MinTlvSize(id) || len > |t| || !SizeLaw(id, len, h) then DecodeTlv(t) == Refused(h)
      else DecodeTlv(t) == Accepted(id, len, SwapTlv(id, t))
  {
    hide SwapTlv, TlvFlip;
  }

  /** The switch of net_to_cpu_tlv: the size law of each type, then its swaps. */
  method BodyToCpu(b: array<octet>, at: nat, len: nat, size: nat, id: u16) returns (ok: bool)
    requires at + size <= b.Length && 0 < MinTlvSize(id) <= len <= size
    modifies b
    ensures ok == SizeLaw(id, len, old(b[at..at + size]))
    ensures if ok then BodySwapped(old(b[..]), b[..], at, id) else b[..] == old(b[..])
  {
    hide SwapTlv, TlvFlip, Swapped, BodySwapped, SwappedTs;
    ghost var m := b[..];
    if id == ALT_TIME {
      if len != MinTlvSize(id) + MakeEven(b[at + 19]) {
        return false;
      }
      SwapAltTime(b, at);
    } else if id == CSPTP_RESPONSE {
      if len != MinTlvSize(id) {
        return false;
      }
      SwapResponse(b, at);
    } else if id == CSPTP_STATUS {
      WireSlice(m, at, size, 28);
      WireSlice(m, at, size, 30);
      var alen := Wire16(b[..], at + 30);
      var nlen := AddressSize(Wire16(b[..], at + 28));
      if nlen == 0 || nlen != alen || len != MinTlvSize(id) + alen {
        return false;
      }
      SwapStatus(b, at);
    } else {
      if id == CSPTP_REQUEST && len != MinTlvSize(id) {
        return false;
      }
      NoSwaps(m, at, id);
    }
    return true;
  }

  lemma WireSlice(m: seq<octet>, at: nat, size: nat, o: nat)
    requires at + size <= |m| && o + 2 <= size
    ensures Wire16(m[at..at + size], o) == Wire16(m, at + o)
  {
  }
}
