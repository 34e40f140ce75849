/**
 The octet layouts of src/msg.h, the size law of each TLV type, and the two
 TLV converters of src/msg.c as functions on the octets of one TLV.
 */
module Wire {
  import opened Octets
  import opened Time

  const MSG_SIZE: nat := 44 // sizeof(struct msg_t)
  const TLV_HDR: nat := 4 // sizeof(struct tlv_hdr_t)
  const MAX_TLVS: nat := 4
  const MAX_TZ_LEN: nat := 10
  const MAX_MESSAGE: nat := 0xffff // messageLength has 16 bits

  const ALT_TIME: u16 := 9
  const CSPTP_REQUEST: u16 := 0xff00
  const CSPTP_RESPONSE: u16 := 0xff01
  const CSPTP_STATUS: u16 := 0xf002
  const PAD: u16 := 0x8008

  const UDP_IPV4: u16 := 1
  const UDP_IPV6: u16 := 2

  function MakeEven(n: nat): nat {
    n + n % 2
  }

  /** _min_tlv_size: 0 for an unknown id. */
  function MinTlvSize(id: u16): nat {
    if id == ALT_TIME then 20
    else if id == CSPTP_REQUEST then 8
    else if id == CSPTP_RESPONSE then 28
    else if id == CSPTP_STATUS then 32
    else if id == PAD then TLV_HDR
    else 0
  }

  /** _adderSize: the address length of a protocol, 0 when unsupported. */
  function AddressSize(protocol: u16): nat {
    if protocol == UDP_IPV4 then 4
    else if protocol == UDP_IPV6 then 16
    else 0
  }

  /** The position an octet of the message header swaps with. */
  function HeaderFlip(k: int): int {
    if k < 8 then Flip(k, 2, 2) // messageLength
    else if k < 16 then Flip(k, 8, 8) // correctionField
    else if k < 34 then Flip(k, 30, 2) // sequenceId
    else PtpFlip(k, 34) // timestamp
  }

  /** The position octet k of a TLV swaps with: the multi-octet fields of its type. */
  function TlvFlip(id: u16, k: int): int {
    if k < 4 then Flip(Flip(k, 0, 2), 2, 2) // tlvType, lengthField
    else if id == ALT_TIME then
      // currentOffset, jumpSeconds, timeOfNextJump
      Flip(Flip(Flip(Flip(k, 5, 4), 9, 4), 13, 2), 15, 4)
    else if id == CSPTP_RESPONSE then
      // reqIngressTimestamp, reqCorrectionField
      if k < 20 then PtpFlip(k, 10) else Flip(k, 20, 8)
    else if id == CSPTP_STATUS then
      // offsetScaledLogVariance, stepsRemoved, currentUtcOffset, networkProtocol, addressLength
      Flip(Flip(Flip(Flip(Flip(k, 13, 2), 16, 2), 18, 2), 28, 2), 30, 2)
    else k
  }

  /** The header of a message with every multi-octet field swapped. */
  function SwapHeader(s: seq<octet>): (r: seq<octet>)
    requires |s| >= MSG_SIZE
    ensures |r| == |s|
  {
    seq(|s|, k requires 0 <= k < |s| => if k < MSG_SIZE then s[HeaderFlip(k)] else s[k])
  }

  /** A TLV at the front of s with every multi-octet field swapped. */
  function SwapTlv(id: u16, s: seq<octet>): (r: seq<octet>)
    requires |s| >= TLV_HDR && |s| >= MinTlvSize(id)
    ensures |r| == |s|
  {
    seq(|s|, k requires 0 <= k < |s| => s[TlvFlip(id, k)])
  }

  /** Only the type and length fields of a TLV swapped. */
  function SwapTlvHeader(s: seq<octet>): (r: seq<octet>)
    requires |s| >= TLV_HDR
    ensures |r| == |s|
  {
    [s[1], s[0], s[3], s[2]] + s[4..]
  }

  lemma SwapHeaderTwice(s: seq<octet>)
    requires |s| >= MSG_SIZE
    ensures SwapHeader(SwapHeader(s)) == s
  {
  }

  lemma SwapTlvTwice(id: u16, s: seq<octet>)
    requires |s| >= TLV_HDR && |s| >= MinTlvSize(id)
    ensures SwapTlv(id, SwapTlv(id, s)) == s
  {
    hide TlvFlip;
    var t := SwapTlv(id, s);
    forall k | 0 <= k < |s|
      ensures SwapTlv(id, t)[k] == s[k]
    {
      TlvFlipTwice(id, k, |s|);
    }
  }

  lemma TlvFlipTwice(id: u16, k: nat, n: nat)
    requires k < n && n >= TLV_HDR && n >= MinTlvSize(id)
    ensures 0 <= TlvFlip(id, k) < n && TlvFlip(id, TlvFlip(id, k)) == k
  {
  }

  /** Swapping the TLV at the front of s leaves what follows it alone. */
  lemma SwapTlvFront(id: u16, t: seq<octet>, rest: seq<octet>)
    requires |t| >= TLV_HDR && |t| >= MinTlvSize(id)
    ensures SwapTlv(id, t + rest) == SwapTlv(id, t) + rest
  {
  }

  // Building: a TLV in host order, exactly tlv_len octets long.

  /** The size law of a host-order TLV: everything cpu_to_net_tlv checks. */
  predicate HostTlv(id: u16, t: seq<octet>) {
    && MinTlvSize(id) != 0
    && MinTlvSize(id) <= |t|
    && Get16(t, 0) == id
    && Get16(t, 2) + TLV_HDR == |t|
    && (id == ALT_TIME ==> |t| == 20 + MakeEven(t[19]))
    && (id == CSPTP_REQUEST || id == CSPTP_RESPONSE ==> |t| == MinTlvSize(id))
    && (id == CSPTP_STATUS ==>
          && AddressSize(Get16(t, 28)) != 0
          && AddressSize(Get16(t, 28)) == Get16(t, 30)
          && |t| == 32 + Get16(t, 30))
  }

  /**
   cpu_to_net_tlv stores a zero after an odd-length name before it checks
   the size, so the name and its pad octet must lie in the TLV.
   */
  predicate NameFits(id: u16, t: seq<octet>) {
    id == ALT_TIME && |t| >= 20 && t[19] % 2 == 1 ==> 20 + t[19] < |t|
  }

  /** The pad octet of an odd-length name set to zero. */
  function ZeroPad(id: u16, t: seq<octet>): (r: seq<octet>)
    requires NameFits(id, t)
    ensures |r| == |t|
  {
    if id == ALT_TIME && |t| >= 20 && t[19] % 2 == 1 then t[20 + t[19] := 0] else t
  }

  /** cpu_to_net_tlv: whether it succeeds, and the octets it leaves. */
  function EncodeTlv(id: u16, t: seq<octet>): (r: (bool, seq<octet>))
    requires NameFits(id, t)
    ensures |r.1| == |t|
    ensures r.0 <==> HostTlv(id, t)
    ensures r.0 ==> r.1 == SwapTlv(id, ZeroPad(id, t))
  {
    var sz := MinTlvSize(id);
    if sz == 0 || |t| < sz || Get16(t, 0) != id || Get16(t, 2) + TLV_HDR != |t| then (false, t)
    else if id == ALT_TIME then
      var z := ZeroPad(id, t);
      if |t| != sz + MakeEven(t[19]) then (false, z) else (true, SwapTlv(id, z))
    else if id == CSPTP_REQUEST || id == CSPTP_RESPONSE then
      if |t| != sz then (false, t) else (true, SwapTlv(id, t))
    else if id == CSPTP_STATUS then
      var alen := Get16(t, 30);
      var nlen := AddressSize(Get16(t, 28));
      if nlen == 0 || nlen != alen || |t| != sz + alen then (false, t) else (true, SwapTlv(id, t))
    else (true, SwapTlv(id, t))
  }

  // Parsing: a TLV in network order at the front of the octets that are left.

  datatype Decoded = Refused(octets: seq<octet>) | Accepted(id: u16, len: nat, octets: seq<octet>)

  /** net_to_cpu_tlv: a refused TLV keeps its swapped type and length, an accepted one is swapped whole. */
  function DecodeTlv(s: seq<octet>): (r: Decoded)
    requires |s| >= TLV_HDR
    ensures |r.octets| == |s|
    ensures r.Accepted? ==> TLV_HDR <= r.len <= |s|
    ensures r.Accepted? ==> MinTlvSize(r.id) != 0 && MinTlvSize(r.id) <= r.len
  {
    var h := SwapTlvHeader(s);
    var id, len := Get16(h, 0), Get16(h, 2) + TLV_HDR;
    var min := MinTlvSize(id);
    if min == 0 || len < min || len > |s| then Refused(h)
    else if id == ALT_TIME && len != min + MakeEven(h[19]) then Refused(h)
    else if (id == CSPTP_REQUEST || id == CSPTP_RESPONSE) && len != min then Refused(h)
    else if id == CSPTP_STATUS then
      var alen := Wire16(h, 30);
      var nlen := AddressSize(Wire16(h, 28));
      if nlen == 0 || nlen != alen || len != min + alen then Refused(h)
      else Accepted(id, len, SwapTlv(id, s))
    else Accepted(id, len, SwapTlv(id, s))
  }

  /** Host to network to host is the identity on every TLV that builds, but for the zeroed pad octet. */
  lemma EncodeThenDecode(id: u16, t: seq<octet>, rest: seq<octet>)
    requires NameFits(id, t) && HostTlv(id, t)
    ensures DecodeTlv(EncodeTlv(id, t).1 + rest) == Accepted(id, |t|, ZeroPad(id, t) + rest)
  {
    var z := ZeroPad(id, t);
    var e := EncodeTlv(id, t).1;
    SwapTlvFront(id, e, rest);
    SwapTlvTwice(id, z);
    var h := SwapTlvHeader(e + rest);
    assert h[0] == t[0] && h[1] == t[1] && h[2] == t[2] && h[3] == t[3];
    if id == CSPTP_STATUS {
      assert h[28] == t[29] && h[29] == t[28] && h[30] == t[31] && h[31] == t[30];
    }
    if id == ALT_TIME {
      assert h[19] == t[19];
    }
  }

  /** An accepted TLV obeys its type's size law, in host order. */
  lemma DecodedIsHost(s: seq<octet>)
    requires |s| >= TLV_HDR && DecodeTlv(s).Accepted?
    ensures var r := DecodeTlv(s); HostTlv(r.id, r.octets[..r.len]) && NameFits(r.id, r.octets[..r.len])
    ensures var r := DecodeTlv(s); r.octets[r.len..] == s[r.len..]
  {
    var r := DecodeTlv(s);
    var h, t := SwapTlvHeader(s), r.octets[..r.len];
    assert t[0] == h[0] && t[1] == h[1] && t[2] == h[2] && t[3] == h[3];
    if r.id == CSPTP_STATUS {
      assert t[28] == s[29] && t[29] == s[28] && t[30] == s[31] && t[31] == s[30];
    }
  }

  /** Network to host to network is the identity on every accepted TLV, but for the zeroed pad octet. */
  lemma DecodeThenEncode(s: seq<octet>)
    requires |s| >= TLV_HDR && DecodeTlv(s).Accepted?
    ensures var r := DecodeTlv(s);
      && NameFits(r.id, r.octets[..r.len]) && NameFits(r.id, s[..r.len])
      && EncodeTlv(r.id, r.octets[..r.len]) == (true, ZeroPad(r.id, s[..r.len]))
  {
    var r := DecodeTlv(s);
    DecodedIsHost(s);
    var t := r.octets[..r.len];
    SwapTlvFront(r.id, s[..r.len], s[r.len..]);
    assert s == s[..r.len] + s[r.len..];
    assert t == SwapTlv(r.id, s[..r.len]);
    SwapTlvTwice(r.id, s[..r.len]);
    assert r.id == ALT_TIME ==> t[19] == s[19];
    var z := ZeroPad(r.id, t);
    assert SwapTlv(r.id, z) == ZeroPad(r.id, s[..r.len]);
  }
}
