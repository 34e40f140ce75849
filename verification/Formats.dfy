/**
 The formats octet by octet, in the values of the standard: which headers and
 TLVs are built, converted and accepted.
 */
module Formats {
  import opened Octets
  import opened Wrappers
  import opened Time
  import opened Wire
  import opened Message
  import opened Builder
  import opened RoundTrip
  import opened Parsing

  // Numbers, octet by octet.

  /** The number in two, four or eight octets, the most significant first. */
  function Big2(s: seq<octet>, o: nat): int
    requires o + 2 <= |s|
  {
    var a: int, b: int := s[o], s[o + 1];
    a * 256 + b
  }

  function Big4(s: seq<octet>, o: nat): int
    requires o + 4 <= |s|
  {
    var a: int, b: int, c: int, d: int := s[o], s[o + 1], s[o + 2], s[o + 3];
    ((a * 256 + b) * 256 + c) * 256 + d
  }

  function Big8(s: seq<octet>, o: nat): int
    requires o + 8 <= |s|
  {
    Big4(s, o) * 0x1_0000_0000 + Big4(s, o + 4)
  }

  /** The number in two, four or eight octets, the least significant first. */
  function Little2(s: seq<octet>, o: nat): int
    requires o + 2 <= |s|
  {
    var a: int, b: int := s[o], s[o + 1];
    a + b * 256
  }

  function Little4(s: seq<octet>, o: nat): int
    requires o + 4 <= |s|
  {
    var a: int, b: int, c: int, d: int := s[o], s[o + 1], s[o + 2], s[o + 3];
    a + (b + (c + d * 256) * 256) * 256
  }

  function Little8(s: seq<octet>, o: nat): int
    requires o + 8 <= |s|
  {
    Little4(s, o) + Little4(s, o + 4) * 0x1_0000_0000
  }

  /** A number rounded up to even. */
  function Even(n: int): int {
    n + n % 2
  }

  /** The loads of the model, octet by octet. */
  lemma LoadsAre(s: seq<octet>, o: nat)
    requires o + 10 <= |s|
    ensures Wire16(s, o) == Big2(s, o) && Wire32(s, o) == Big4(s, o) && Wire64(s, o) == Big8(s, o)
    ensures Wire48(s, o) == Big2(s, o) * 0x1_0000_0000 + Big4(s, o + 2)
    ensures WirePtp(s, o) == PtpTime(Big2(s, o), Big4(s, o + 2), Big4(s, o + 6))
    ensures Get16(s, o) == Little2(s, o) && Get32(s, o) == Little4(s, o) && Get64(s, o) == Little8(s, o)
    ensures PtpAt(s, o) == PtpTime(Little2(s, o), Little4(s, o + 2), Little4(s, o + 6))
  {
  }

  /** Two's complement: a negative number is stored as 2 to the 64 more. */
  lemma ComplementIs(i: i64)
    ensures Bits64(i) == i || Bits64(i) == i + 0x1_0000_0000_0000_0000
    ensures Signed64(Bits64(i)) == i
  {
  }

  // Headers.

  /** parse, from the octets received: accepted are exactly these headers. */
  lemma ParseAccepts(s: seq<octet>, used: nat)
    requires ClaimsHeader(s, used)
    ensures Parse(s, used).Parsed? <==>
      && 44 <= used <= |s| && Big2(s, 2) <= used
      && s[0] / 16 == 3
      && ((s[0] % 16 == 0 && s[32] == 0) || (s[0] % 16 == 8 && s[32] == 2))
      && s[1] == 0x12 && s[5] == 0 && (s[6] == 4 || s[6] == 6) && s[7] < 64
      && (forall k :: 20 <= k < 30 ==> s[k] == 0) && s[33] == 0x7f
  {
    hide ScanTlvs, ParamsAt, SwapHeader, HeaderAccepted, Get16;
    if 44 <= used <= |s| {
      var h := SwapHeader(s);
      HeaderOrders(s);
      SwapKeeps(s);
      AcceptedHeader(h);
    }
  }

  /** What receiving demands of a message: if its header is one of these, it claims at least a header. */
  lemma ClaimsHeaderIs(s: seq<octet>, used: nat)
    ensures ClaimsHeader(s, used) <==>
      (&& 44 <= used <= |s|
       && s[0] / 16 == 3
       && ((s[0] % 16 == 0 && s[32] == 0) || (s[0] % 16 == 8 && s[32] == 2))
       && s[1] == 0x12 && s[5] == 0 && (s[6] == 4 || s[6] == 6) && s[7] < 64
       && (forall k :: 20 <= k < 30 ==> s[k] == 0) && s[33] == 0x7f
       ==> Big2(s, 2) >= 44)
  {
    if 44 <= used <= |s| {
      SwapKeeps(s);
      AcceptedHeader(SwapHeader(s));
    }
  }

  /** Which messages parse goes on with to its TLVs, whatever length they claim. */
  lemma ReachesTlvsIs(s: seq<octet>, used: nat)
    ensures ReachesTlvs(s, used) <==>
      && 44 <= used <= |s| && Big2(s, 2) <= used
      && s[0] / 16 == 3
      && ((s[0] % 16 == 0 && s[32] == 0) || (s[0] % 16 == 8 && s[32] == 2))
      && s[1] == 0x12 && s[5] == 0 && (s[6] == 4 || s[6] == 6) && s[7] < 64
      && (forall k :: 20 <= k < 30 ==> s[k] == 0) && s[33] == 0x7f
  {
    hide SwapHeader, HeaderAccepted, Get16;
    if 44 <= used <= |s| {
      HeaderOrders(s);
      SwapKeeps(s);
      AcceptedHeader(SwapHeader(s));
    }
  }

  /** The octets of a header that are in the same place in both orders, and those that are swapped. */
  lemma SwapKeeps(s: seq<octet>)
    requires |s| >= 44
    ensures var h := SwapHeader(s);
      && (forall k :: 0 <= k < 44 && k !in {2, 3, 30, 31} && !(8 <= k < 16) && !(34 <= k < 44) ==> h[k] == s[k])
      && h[2] == s[3] && h[3] == s[2] && h[30] == s[31] && h[31] == s[30]
      && (forall k :: 8 <= k < 16 ==> h[k] == s[23 - k])
      && h[34] == s[35] && h[35] == s[34]
      && (forall k :: 36 <= k < 40 ==> h[k] == s[75 - k]) && (forall k :: 40 <= k < 44 ==> h[k] == s[83 - k])
  {
  }

  lemma AcceptedHeader(h: seq<octet>)
    requires |h| >= 44
    ensures HeaderAccepted(h) <==>
      && h[0] / 16 == 3
      && ((h[0] % 16 == 0 && h[32] == 0) || (h[0] % 16 == 8 && h[32] == 2))
      && h[1] == 0x12 && h[5] == 0 && (h[6] == 4 || h[6] == 6) && h[7] < 64
      && (forall k :: 20 <= k < 30 ==> h[k] == 0) && h[33] == 0x7f
  {
  }

  /** An accepted message's parameters, from the octets received. */
  lemma ParsedParams(s: seq<octet>, used: nat)
    requires ClaimsHeader(s, used) && Parse(s, used).Parsed?
    ensures |s| >= 44
    ensures var p := Parse(s, used).params;
      && p.kind == s[0] % 16 && (p.kind == 0 || p.kind == 8) && p.domainNumber == s[4]
      && p.useTwoSteps == (s[6] == 6) && p.flagField2 == s[7]
      && p.sequenceId == Big2(s, 30)
      && Bits64(p.correctionField) == Big8(s, 8)
      && p.timestamp.high == Big2(s, 34)
      && p.timestamp.low == Big4(s, 36)
      && p.timestamp.nsec == Big4(s, 40)
  {
    hide Parse, SwapHeader, Tiled, TlvsEnd, ParsedTlv;
    ParseAccepts(s, used);
    ParseFrames(s, used);
    WireIs(s);
  }

  lemma ParsedTime(s: seq<octet>, used: nat)
    requires ClaimsHeader(s, used) && Parse(s, used).Parsed?
    ensures |s| >= 44 && Parse(s, used).params.timestamp == WirePtp(s, 34)
  {
    hide Parse, SwapHeader, TlvsEnd, WirePtp;
    ParseFrames(s, used);
  }

  /** The wire reading of a header, octet by octet. */
  lemma WireIs(s: seq<octet>)
    requires |s| >= 44
    ensures var p := WireParams(s);
      && p.kind == s[0] % 16 && p.domainNumber == s[4] && p.useTwoSteps == (s[6] / 2 % 2 == 1) && p.flagField2 == s[7]
      && p.sequenceId == Big2(s, 30)
      && Bits64(p.correctionField) == Big8(s, 8)
      && p.timestamp.high == Big2(s, 34)
      && p.timestamp.low == Big4(s, 36)
      && p.timestamp.nsec == Big4(s, 40)
  {
  }

  /** init succeeds for a Sync and a Follow_Up in 44 octets or more, and writes this header. */
  lemma InitHeader(w: Work, p: Params)
    ensures Init(w, p).0 <==> |w.octets| >= 44 && (p.kind == 0 || p.kind == 8)
    ensures !Init(w, p).0 ==> Init(w, p).1 == w
    ensures Init(w, p).0 ==>
      Init(w, p).1.used == 44 && Init(w, p).1.msg == Msg(p.kind, 44, 44, |w.octets| - 44, [])
    ensures Init(w, p).0 ==>
      var h := Init(w, p).1.octets;
      && |h| == |w.octets| && h[44..] == w.octets[44..]
      && h[0] == p.kind + 0x30 && h[1] == 0x12 && h[2] == 0 && h[3] == 0 && h[4] == p.domainNumber && h[5] == 0
      && h[6] == (if p.useTwoSteps then 6 else 4) && h[7] == p.flagField2
      && Bits64(p.correctionField) == Little8(h, 8)
      && (forall k :: 16 <= k < 30 ==> h[k] == 0)
      && p.sequenceId == Little2(h, 30) && h[32] == (if p.kind == 0 then 0 else 2) && h[33] == 0x7f
      && p.timestamp.high == Little2(h, 34)
      && p.timestamp.low == Little4(h, 36)
      && p.timestamp.nsec == Little4(h, 40)
  {
    hide HeaderOctets;
    if Init(w, p).0 {
      HeaderFields(p);
      HostIs(HeaderOctets(p));
      LengthUnset(p);
    }
  }

  lemma LengthUnset(p: Params)
    requires ControlField(p.kind).Some?
    ensures HeaderOctets(p)[2] == 0 && HeaderOctets(p)[3] == 0
  {
  }

  /** Host loads, octet by octet. */
  lemma HostIs(h: seq<octet>)
    requires |h| >= 44
    ensures Get64(h, 8) == Little8(h, 8)
    ensures Get16(h, 30) == Little2(h, 30) && PtpAt(h, 34).high == Little2(h, 34)
    ensures PtpAt(h, 34).low == Little4(h, 36)
    ensures PtpAt(h, 34).nsec == Little4(h, 40)
  {
  }

  /** The header of every message buildDone makes, as it goes out. */
  lemma BuiltHeaderIs(w: Work, p: Params, size: nat)
    requires Building(w, p) && BuildDone(w, size).0
    ensures p.kind == 0 || p.kind == 8
    ensures var b := BuildDone(w, size).1;
      var n := b.octets;
      && |n| == |w.octets| >= 44
      && n[0] == p.kind + 0x30 && n[1] == 0x12 && Big2(n, 2) == b.used && n[4] == p.domainNumber && n[5] == 0
      && n[6] == (if p.useTwoSteps then 6 else 4) && n[7] == p.flagField2
      && Bits64(p.correctionField) == Big8(n, 8)
      && (forall k :: 16 <= k < 30 ==> n[k] == 0)
      && p.sequenceId == Big2(n, 30) && n[32] == (if p.kind == 0 then 0 else 2) && n[33] == 0x7f
      && p.timestamp.high == Big2(n, 34)
      && p.timestamp.low == Big4(n, 36)
      && p.timestamp.nsec == Big4(n, 40)
  {
    hide BuildDone, HeaderOctets, WireParams, SwapHeader, ReadBack, Parse, Put16, BuiltAs, EncodeTlvs, Tiled, TlvsFit, TlvsBuilt;
    BuildThenParse(w, p, size);
    BuiltRegions(w, p, size);
    BuiltFront(w, p, size);
    WireIs(BuildDone(w, size).1.octets);
  }

  /** The octets of the header that are not numbers, from init to the wire. */
  lemma BuiltFront(w: Work, p: Params, size: nat)
    requires Building(w, p) && SizeAccepted(w, size) && BuildDone(w, size).0
    requires BuiltAs(w.octets, w.msg.tlvs, FullSize(w, size), w.msg.end, BuildDone(w, size).1.octets, ReadBack(w, size))
    ensures p.kind == 0 || p.kind == 8
    ensures var n := BuildDone(w, size).1.octets;
      && |n| == |w.octets| >= 44 && n[0] == p.kind + 0x30 && n[1] == 0x12 && n[5] == 0
      && n[6] == (if p.useTwoSteps then 6 else 4) && (forall k :: 16 <= k < 30 ==> n[k] == 0)
      && n[32] == (if p.kind == 0 then 0 else 2) && n[33] == 0x7f && Big2(n, 2) == Wire16(n, 2)
  {
    hide BuildDone, HeaderOctets, SwapHeader, ReadBack, Put16, EncodeTlvs, Tiled, TlvsFit, TlvsBuilt, SizeAccepted;
    var n := BuildDone(w, size).1.octets;
    HeaderFields(p);
    SwapKeeps(n);
    var x := Splice(w.octets, 2, Put16(FullSize(w, size)));
    var h, f := SwapHeader(n), HeaderOctets(p);
    forall k | 0 <= k < 44 && k != 2 && k != 3
      ensures h[k] == f[k]
    {
      assert h[k] == h[..44][k] == x[..44][k] == w.octets[..44][k];
    }
  }

  // TLVs.

  /** addTlv records exactly these TLVs, filled in from the end of the message on, in these sizes. */
  lemma AddTlvRecords(w: Work, id: u16)
    requires Laid(w) && w.msg.Msg?
    ensures AddTlv(w, id).0 <==>
      && |w.msg.tlvs| < 4
      && ((id == 9 && w.msg.left >= 20 &&
             var n := w.octets[w.msg.end + 19]; n == 255 || (n <= 10 && w.msg.left >= 20 + Even(n)))
          || (id == 0xff01 && w.msg.left >= 28)
          || (id == 0xf002 && w.msg.left >= 36 && w.octets[w.msg.end + 28] == 1 && w.octets[w.msg.end + 29] == 0)
          || (id == 0xf002 && w.msg.left >= 48 && w.octets[w.msg.end + 28] == 2 && w.octets[w.msg.end + 29] == 0))
    ensures AddTlv(w, id).0 ==>
      var t := Tlv(w.msg.end, RecordedSize(w, id), id);
      var m := AddTlv(w, id).1.msg;
      m.Msg? && m.tlvs == w.msg.tlvs + [t] && m.end == w.msg.end + t.len && m.len == w.msg.len + t.len && m.left == w.msg.left - t.len
  {
    hide Tiled, Splice, FilledSize;
    var u := w.octets[w.msg.end..];
    LeastSizes(id);
    if |u| >= MinTlvSize(id) {
      SizesFilled(id, u);
    }
  }

  /**
   The octets addTlv writes: type and length, in host order, at the end of the
   message; if it fails, the type alone, and that only if an entry and the
   least size of a known type are left.
   */
  lemma AddTlvOctets(w: Work, id: u16)
    requires Laid(w) && w.msg.Msg?
    ensures var r, e := AddTlv(w, id), w.msg.end;
      && |r.1.octets| == |w.octets|
      && (r.0 ==>
            && e + 4 <= |w.octets| && r.1.msg.Msg? && r.1.used == (if r.1.msg.len <= |w.octets| then r.1.msg.len else w.used)
            && Little2(r.1.octets, e) == id && Little2(r.1.octets, e + 2) == RecordedSize(w, id) - 4
            && forall k :: 0 <= k < |w.octets| && !(e <= k < e + 4) ==> r.1.octets[k] == w.octets[k])
      && (!r.0 ==> r.1.msg == w.msg && r.1.used == w.used)
      && (!r.0 && |w.msg.tlvs| < 4 && id in {9, 0xff00, 0xff01, 0xf002, 0x8008} && w.msg.left >= MinTlvSize(id) ==>
            && e + 2 <= |w.octets| && Little2(r.1.octets, e) == id
            && forall k :: 0 <= k < |w.octets| && !(e <= k < e + 2) ==> r.1.octets[k] == w.octets[k])
      && (!r.0 && !(|w.msg.tlvs| < 4 && id in {9, 0xff00, 0xff01, 0xf002, 0x8008} && w.msg.left >= MinTlvSize(id)) ==>
            r.1 == w)
  {
    hide Tiled, FilledSize;
    LeastSizes(id);
    if w.msg.left >= MinTlvSize(id) {
      SizesFilled(id, w.octets[w.msg.end..]);
    }
  }

  lemma LeastSizes(id: u16)
    ensures MinTlvSize(id) == (if id == 9 then 20 else if id == 0xff00 then 8 else if id == 0xff01 then 28
      else if id == 0xf002 then 32 else if id == 0x8008 then 4 else 0)
  {
  }

  lemma SizesFilled(id: u16, u: seq<octet>)
    requires |u| >= MinTlvSize(id)
    ensures id == 9 ==>
      (FilledSize(id, u) == if u[19] == 255 then Some(20) else if u[19] <= 10 then Some(20 + Even(u[19])) else None)
    ensures id == 0xff01 ==> FilledSize(id, u) == Some(28)
    ensures id == 0xf002 && u[28] == 1 && u[29] == 0 ==> FilledSize(id, u) == Some(36)
    ensures id == 0xf002 && u[28] == 2 && u[29] == 0 ==> FilledSize(id, u) == Some(48)
    ensures id == 0xf002 && ((u[28] != 1 && u[28] != 2) || u[29] != 0) ==> FilledSize(id, u) == None
    ensures id != 9 && id != 0xff01 && id != 0xf002 ==> FilledSize(id, u) == None
  {
  }

  /** 20 octets and the name made even, 28 octets, 36 for IPv4, 48 for IPv6. */
  function RecordedSize(w: Work, id: u16): int
    requires w.msg.Msg?
  {
    if id == 9 && w.msg.end + 19 < |w.octets| then
      var n := w.octets[w.msg.end + 19]; if n == 255 then 20 else 20 + Even(n)
    else if id == 0xff01 then 28
    else if w.msg.end + 28 < |w.octets| && w.octets[w.msg.end + 28] == 1 then 36
    else 48
  }

  /** cpu_to_net_tlv accepts exactly these TLVs, in host order. */
  lemma EncodeAccepts(id: u16, t: seq<octet>)
    requires NameFits(id, t)
    ensures EncodeTlv(id, t).0 <==>
      && |t| >= 4 && Little2(t, 0) == id && Little2(t, 2) + 4 == |t|
      && ((id == 9 && |t| >= 20 && |t| == 20 + Even(t[19]))
          || (id == 0xff00 && |t| == 8)
          || (id == 0xff01 && |t| == 28)
          || (id == 0xf002 && |t| == 36 && t[28] == 1 && t[29] == 0 && t[30] == 4 && t[31] == 0)
          || (id == 0xf002 && |t| == 48 && t[28] == 2 && t[29] == 0 && t[30] == 16 && t[31] == 0)
          || id == 0x8008)
  {
    hide SwapTlv, ZeroPad;
  }

  /** net_to_cpu_tlv accepts exactly these TLVs, in network order, and takes their type and length from their first octets. */
  lemma DecodeAccepts(s: seq<octet>)
    requires |s| >= 4
    ensures var id, len := Big2(s, 0), Big2(s, 2) + 4;
      && (DecodeTlv(s).Accepted? <==>
            && len <= |s|
            && ((id == 9 && len >= 20 && len == 20 + Even(s[19]))
                || (id == 0xff00 && len == 8)
                || (id == 0xff01 && len == 28)
                || (id == 0xf002 && len == 36 && s[28] == 0 && s[29] == 1 && s[30] == 0 && s[31] == 4)
                || (id == 0xf002 && len == 48 && s[28] == 0 && s[29] == 2 && s[30] == 0 && s[31] == 16)
                || id == 0x8008))
      && (DecodeTlv(s).Accepted? ==> DecodeTlv(s).id == id && DecodeTlv(s).len == len)
  {
    hide SwapTlv;
  }

  /** The sizes buildDone accepts. */
  lemma SizesAccepted(w: Work, size: nat)
    requires w.msg.Msg?
    ensures SizeAccepted(w, size) <==>
      size == 0
      || (size % 2 == 0 && w.msg.len <= size <= |w.octets|
          && (size == w.msg.len || 4 <= size - w.msg.len <= w.msg.left))
  {
  }

  /**
   The lengths and the table after buildDone: the message has the size asked
   for, the PAD, if any, is recorded where there is an entry left for it; and
   a failure leaves them as they were.
   */
  lemma BuildDoneRecords(w: Work, size: nat)
    requires Ready(w) && w.msg.Msg?
    ensures !BuildDone(w, size).0 ==> BuildDone(w, size).1.msg == w.msg && BuildDone(w, size).1.used == w.used
    ensures !SizeAccepted(w, size) ==> BuildDone(w, size) == (false, w)
    ensures SizeAccepted(w, size) && !BuildDone(w, size).0 ==>
      BuildDone(w, size).1.octets == EncodeTlvs(w.octets, w.msg.tlvs, 0).1 // converted up to the one that fails
    ensures BuildDone(w, size).0 ==>
      var r, m, pad := BuildDone(w, size).1, w.msg, if size == 0 then 0 else size - w.msg.len;
      && SizeAccepted(w, size) && pad >= 0
      && r.used == (if m.len + pad <= |w.octets| then m.len + pad else w.used)
      && (pad == 0 ==> r.msg == m)
      && (pad > 0 ==>
            && r.msg.Msg? && r.msg.kind == m.kind && r.msg.len == size && r.msg.end == m.end + pad && r.msg.left == m.left - pad
            && r.msg.tlvs == if |m.tlvs| < 4 then m.tlvs + [Tlv(m.end, pad, 0x8008)] else m.tlvs)
  {
    hide Laid, TlvsFit, EncodeTlvs, Sealed;
  }

  /** addCSPTPReqTlv needs a free entry of the four in the table and eight octets, and writes the two flags. */
  lemma AddReqTlvRecords(w: Work, flags: octet)
    requires Laid(w) && w.msg.Msg?
    ensures AddReqTlv(w, flags).0 <==> |w.msg.tlvs| < 4 && w.msg.left >= 8
    ensures !AddReqTlv(w, flags).0 ==> AddReqTlv(w, flags).1 == w
    ensures AddReqTlv(w, flags).0 ==>
      var r, e := AddReqTlv(w, flags).1, w.msg.end;
      && r.msg == Msg(w.msg.kind, w.msg.len + 8, e + 8, w.msg.left - 8, w.msg.tlvs + [Tlv(e, 8, 0xff00)])
      && |r.octets| == |w.octets| && r.used == (if r.msg.len <= |w.octets| then r.msg.len else w.used)
      && r.octets[e] == 0x00 && r.octets[e + 1] == 0xff && r.octets[e + 2] == 4 && r.octets[e + 3] == 0
      && r.octets[e + 4] == flags % 4 && r.octets[e + 5] == 0 && r.octets[e + 6] == 0 && r.octets[e + 7] == 0
      && (forall i :: 0 <= i < |w.octets| && !(e <= i < e + 8) ==> r.octets[i] == w.octets[i])
  {
    hide Tiled;
  }

  /** The PAD on the wire. */
  lemma PadIs(n: nat)
    requires 4 <= n <= MAX_MESSAGE
    ensures var o := PadOctets(n);
      && |o| == n && o[0] == 0x80 && o[1] == 0x08 && Big2(o, 2) == n - 4
      && forall k :: 4 <= k < n ==> o[k] == 0
  {
  }
}
