/**
 Build, then parse: what comes back is what went in.  Parse alone: what it
 accepts from any octets.
 */
module RoundTrip {
  import opened Octets
  import opened Time
  import opened Wire
  import opened Message
  import opened Builder

  /** The message parameters read from the wire by the standard's layout, big-endian. */
  function WireParams(s: seq<octet>): Params
    requires |s| >= MSG_SIZE
  {
    Params(s[0] % 16, s[4], Signed64(Wire64(s, 8)), Wire16(s, 30), s[7], WirePtp(s, 34), s[6] / 2 % 2 == 1)
  }

  /** The header swap turns the wire reading into the host reading, and back. */
  lemma HeaderOrders(s: seq<octet>)
    requires |s| >= MSG_SIZE
    ensures ParamsAt(SwapHeader(s)) == WireParams(s)
    ensures WireParams(SwapHeader(s)) == ParamsAt(s)
    ensures Get16(SwapHeader(s), 2) == Wire16(s, 2) && Wire16(SwapHeader(s), 2) == Get16(s, 2)
  {
    var t := SwapHeader(s);
    assert Reversed(s, t, 2, 2) && Reversed(s, t, 8, 8) && Reversed(s, t, 30, 2);
    Swapped16(s, t, 2);
    Swapped64(s, t, 8);
    Swapped16(s, t, 30);
    SwappedPtp(s, t, 34);
  }

  /** The host-order header init writes holds the parameters, and passes parse iff flagField2 is below 64. */
  lemma HeaderHolds(p: Params, h: seq<octet>)
    requires ControlField(p.kind).Some? && |h| >= MSG_SIZE
    requires forall k :: 0 <= k < MSG_SIZE && k != 2 && k != 3 ==> h[k] == HeaderOctets(p)[k]
    ensures ParamsAt(h) == p
    ensures HeaderAccepted(h) <==> p.flagField2 < 0x40
  {
    hide HeaderOctets;
    HeaderFields(p);
    SameLoads(h, HeaderOctets(p));
  }

  lemma SameLoads(h: seq<octet>, g: seq<octet>)
    requires |h| >= MSG_SIZE && |g| >= MSG_SIZE && forall k :: 0 <= k < MSG_SIZE && k != 2 && k != 3 ==> h[k] == g[k]
    ensures Get64(h, 8) == Get64(g, 8) && Get16(h, 30) == Get16(g, 30) && PtpAt(h, 34) == PtpAt(g, 34)
  {
  }

  lemma HeaderFields(p: Params)
    requires ControlField(p.kind).Some?
    ensures var h := HeaderOctets(p);
      && h[0] == p.kind + 0x30 && h[1] == 0x12 && h[4] == p.domainNumber && h[5] == 0
      && h[6] == (if p.useTwoSteps then 6 else 4) && h[7] == p.flagField2
      && Get64(h, 8) == Bits64(p.correctionField)
      && Get16(h, 30) == p.sequenceId
      && PtpAt(h, 34) == p.timestamp
      && h[32] == ControlField(p.kind).value && h[33] == 0x7f
      && (forall k :: 16 <= k < 30 ==> h[k] == 0)
  {
    var h := HeaderOctets(p);
    var c := Put64(Bits64(p.correctionField));
    assert h[8..16] == c;
    Load64(h, 8, c);
    assert h[30..32] == Put16(p.sequenceId);
    assert h[34..44] == PtpOctets(p.timestamp);
    LoadPtp(h, 34, PtpOctets(p.timestamp));
  }

  lemma Load64(s: seq<octet>, o: nat, f: seq<octet>)
    requires o + 8 <= |s| && |f| == 8 && s[o..o + 8] == f
    ensures Get64(s, o) == Get64(f, 0)
  {
    assert forall k :: 0 <= k < 8 ==> s[o + k] == f[k];
  }

  lemma LoadPtp(s: seq<octet>, o: nat, f: seq<octet>)
    requires o + 10 <= |s| && |f| == 10 && s[o..o + 10] == f
    ensures PtpAt(s, o) == PtpAt(f, 0)
  {
    assert forall k :: 0 <= k < 10 ==> s[o + k] == f[k];
  }

  // What buildDone leaves in the buffer.

  /** The position of the pad octet of an odd-length time-zone name, or -1. */
  function NamePadAt(s: seq<octet>, t: Tlv): int
    requires t.at + t.len <= |s|
  {
    if t.id == ALT_TIME && t.len >= 20 && s[t.at + 19] % 2 == 1 then t.at + 20 + s[t.at + 19] else -1
  }

  predicate IsNamePad(s: seq<octet>, tlvs: seq<Tlv>, i: nat)
    requires TlvsFit(s, tlvs)
  {
    exists k :: 0 <= k < |tlvs| && NamePadAt(s, tlvs[k]) == i
  }

  lemma NamePadInside(s: seq<octet>, t: Tlv)
    requires t.at + t.len <= |s| && NameFits(t.id, TlvOctets(s, t))
    ensures NamePadAt(s, t) == -1 || t.at + 20 <= NamePadAt(s, t) < t.at + t.len
    ensures ZeroPad(t.id, TlvOctets(s, t)) ==
            if NamePadAt(s, t) == -1 then TlvOctets(s, t) else TlvOctets(s, t)[NamePadAt(s, t) - t.at := 0]
  {
    if t.id == ALT_TIME && t.len >= 20 {
      assert TlvOctets(s, t)[19] == s[t.at + 19];
    }
  }

  /** The octets with every name pad set to zero: all that building loses of the TLVs. */
  function NamesPadded(s: seq<octet>, tlvs: seq<Tlv>): (r: seq<octet>)
    requires TlvsFit(s, tlvs)
    ensures |r| == |s|
  {
    seq(|s|, i requires 0 <= i < |s| => if IsNamePad(s, tlvs, i) then 0 else s[i])
  }

  lemma PaddedTlv(s: seq<octet>, tlvs: seq<Tlv>, k: nat)
    requires Tiled(tlvs) && TlvsFit(s, tlvs) && k < |tlvs|
    ensures TlvOctets(NamesPadded(s, tlvs), tlvs[k]) == ZeroPad(tlvs[k].id, TlvOctets(s, tlvs[k]))
  {
    hide NamePadAt, ZeroPad, NameFits, Tiled;
    var t := tlvs[k];
    var d := NamesPadded(s, tlvs);
    TiledBounds(tlvs, k);
    NamePadInside(s, t);
    forall i | t.at <= i < t.at + t.len
      ensures d[i] == if NamePadAt(s, t) == i then 0 else s[i]
    {
      forall j | 0 <= j < |tlvs| && j != k
        ensures NamePadAt(s, tlvs[j]) != i
      {
        NamePadInside(s, tlvs[j]);
        if j < k {
          TiledOrder(tlvs, j, k);
        } else {
          TiledOrder(tlvs, k, j);
        }
      }
    }
  }

  /** n holds the network form and d the padded host form of each TLV of s. */
  predicate Coded(s: seq<octet>, n: seq<octet>, d: seq<octet>, tlvs: seq<Tlv>)
    requires TlvsFit(s, tlvs) && |s| == |n| == |d|
  {
    forall k :: 0 <= k < |tlvs| ==>
      var h := TlvOctets(s, tlvs[k]);
      && HostTlv(tlvs[k].id, h)
      && TlvOctets(n, tlvs[k]) == EncodeTlv(tlvs[k].id, h).1
      && TlvOctets(d, tlvs[k]) == ZeroPad(tlvs[k].id, h)
      && tlvs[k].len > TLV_HDR
  }

  /** The state of the parse loop once it has accepted the first k built TLVs. */
  function ScanAfter(n: seq<octet>, d: seq<octet>, tlvs: seq<Tlv>, k: nat, full: nat): TlvScan
    requires k <= |tlvs| <= MAX_TLVS && |n| == |d| && TlvsEnd(tlvs[..k]) <= full <= |n|
  {
    var at := TlvsEnd(tlvs[..k]);
    TlvScan(d[..at] + n[at..], at, full - at, tlvs[..k])
  }

  lemma Ahead(n: seq<octet>, d: seq<octet>, at: nat, len: nat, full: nat)
    requires |n| == |d| && at + len <= full <= |n|
    ensures (d[..at] + n[at..])[at..full] == n[at..at + len] + n[at + len..full]
  {
    Tail(n, d, at, full);
  }

  lemma Tail(n: seq<octet>, d: seq<octet>, at: nat, full: nat)
    requires |n| == |d| && at <= full <= |n|
    ensures (d[..at] + n[at..])[at..full] == n[at..full]
  {
    var x, y := d[..at], n[at..];
    assert (x + y)[at..full] == y[..full - at];
  }

  lemma Advance(n: seq<octet>, d: seq<octet>, at: nat, len: nat, full: nat)
    requires |n| == |d| && at + len <= full <= |n|
    ensures Splice(d[..at] + n[at..], at, d[at..at + len] + n[at + len..full]) == d[..at + len] + n[at + len..]
  {
  }

  /** One iteration of the parse loop. */
  lemma ScanOne(z: TlvScan, id: u16, len: nat, d: seq<octet>)
    requires z.at + z.size <= |z.octets| && |z.tlvs| < MAX_TLVS && z.size > TLV_HDR
    requires DecodeTlv(z.octets[z.at..z.at + z.size]) == Accepted(id, len, d)
    ensures |d| == z.size && len <= z.size
    ensures ScanTlvs(z) ==
            ScanTlvs(TlvScan(Splice(z.octets, z.at, d), z.at + len, z.size - len, z.tlvs + [Tlv(z.at, len, id)]))
  {
    hide DecodeTlv;
  }

  lemma CodedAt(s: seq<octet>, n: seq<octet>, d: seq<octet>, tlvs: seq<Tlv>, k: nat)
    requires TlvsFit(s, tlvs) && |s| == |n| == |d| && Coded(s, n, d, tlvs) && k < |tlvs|
    ensures tlvs[k].at + tlvs[k].len <= |s|
    ensures var id, h := tlvs[k].id, TlvOctets(s, tlvs[k]);
      && NameFits(id, h) && HostTlv(id, h)
      && TlvOctets(n, tlvs[k]) == EncodeTlv(id, h).1
      && TlvOctets(d, tlvs[k]) == ZeroPad(id, h)
      && tlvs[k].len > TLV_HDR
  {
    hide EncodeTlv, HostTlv, ZeroPad, NameFits;
  }

  /** The parse loop accepts the built TLVs one by one, each turning back to its padded host form. */
  lemma {:induction false} ScanBuilt(s: seq<octet>, n: seq<octet>, d: seq<octet>, tlvs: seq<Tlv>, k: nat, full: nat)
    requires Tiled(tlvs) && TlvsFit(s, tlvs) && |s| == |n| == |d| && Coded(s, n, d, tlvs)
    requires k <= |tlvs| <= MAX_TLVS && TlvsEnd(tlvs) <= full <= |n|
    requires TlvsEnd(tlvs[..k]) <= full && TlvsEnd(tlvs[..|tlvs|]) <= full
    ensures ScanTlvs(ScanAfter(n, d, tlvs, k, full)) == ScanTlvs(ScanAfter(n, d, tlvs, |tlvs|, full))
    decreases |tlvs| - k
  {
    hide EncodeTlv, HostTlv, ZeroPad, DecodeTlv, SwapTlv, NameFits, ScanTlvs, Tiled, Coded, TlvsFit, MinTlvSize, Splice;
    if k < |tlvs| {
      var z := ScanAfter(n, d, tlvs, k, full);
      var t := tlvs[k];
      TiledBounds(tlvs, k);
      TiledPrefix(tlvs, k);
      TiledPrefix(tlvs, k + 1);
      assert tlvs[..k + 1] == tlvs[..k] + [t];
      CodedAt(s, n, d, tlvs, k);
      var h := TlvOctets(s, t);
      var rest := n[t.at + t.len..full];
      Ahead(n, d, t.at, t.len, full);
      EncodeThenDecode(t.id, h, rest);
      ScanOne(z, t.id, t.len, ZeroPad(t.id, h) + rest);
      Advance(n, d, t.at, t.len, full);
      ScanBuilt(s, n, d, tlvs, k + 1, full);
    }
  }

  /** Where the k-th TLV starts is where the first k end. */
  lemma {:induction false} TiledPrefix(tlvs: seq<Tlv>, k: nat)
    requires Tiled(tlvs) && k <= |tlvs|
    ensures TlvsEnd(tlvs[..k]) <= TlvsEnd(tlvs)
    ensures k < |tlvs| ==> tlvs[k].at == TlvsEnd(tlvs[..k])
  {
    var n := |tlvs| - 1;
    if k == |tlvs| {
      assert tlvs[..k] == tlvs;
    } else if k < n {
      TiledPrefix(tlvs[..n], k);
      assert tlvs[..n][..k] == tlvs[..k];
    }
  }

  /** The size a built message has. */
  function FullSize(w: Work, size: nat): nat
    requires w.msg.Msg?
  {
    if size == 0 then w.msg.len else size
  }

  /** Whether parse records the PAD of a built message: not when 4 octets long, not when the table is full. */
  predicate PadRecorded(w: Work, size: nat)
    requires w.msg.Msg?
  {
    FullSize(w, size) > w.msg.len + TLV_HDR && |w.msg.tlvs| < MAX_TLVS
  }

  /**
   The octets parse leaves: the host-order octets the builder had, but for
   messageLength, the name pads, and the PAD.
   */
  function ReadBack(w: Work, size: nat): (d: seq<octet>)
    requires w.msg.Msg? && Ready(w) && w.msg.len == w.msg.end && SizeAccepted(w, size)
    ensures |d| == |w.octets|
  {
    var full := FullSize(w, size);
    var pad := full - w.msg.len;
    var s := Splice(NamesPadded(w.octets, w.msg.tlvs), 2, Put16(full));
    if pad < TLV_HDR then s
    else Splice(s, w.msg.end, if PadRecorded(w, size) then SwapTlv(PAD, PadOctets(pad)) else PadOctets(pad))
  }

  /** What parse records of a built message. */
  function ReadBackMsg(w: Work, size: nat): Msg
    requires w.msg.Msg? && Ready(w) && w.msg.len == w.msg.end && SizeAccepted(w, size)
  {
    var full := FullSize(w, size);
    if PadRecorded(w, size) then
      Msg(w.msg.kind, full, full, |w.octets| - full, w.msg.tlvs + [Tlv(w.msg.end, full - w.msg.end, PAD)])
    else
      Msg(w.msg.kind, full, w.msg.end, |w.octets| - w.msg.end, w.msg.tlvs)
  }

  /** What sealing does, region by region. */
  lemma SealedOctets(e: seq<octet>, full: nat, end: nat, pad: nat)
    requires MSG_SIZE <= end && end + pad <= |e| <= MAX_MESSAGE && full <= MAX_MESSAGE
    requires pad == 0 || pad >= TLV_HDR
    ensures var n := Sealed(e, full, end, pad);
      && SwapHeader(n)[..MSG_SIZE] == Splice(e, 2, Put16(full))[..MSG_SIZE]
      && SwapHeader(n)[MSG_SIZE..] == n[MSG_SIZE..]
      && n[MSG_SIZE..end] == e[MSG_SIZE..end]
      && (pad > 0 ==> n[end..end + pad] == PadOctets(pad))
      && n[end + pad..] == e[end + pad..]
  {
    hide PadOctets, SwapHeader, Put16;
    var g := Splice(e, 2, Put16(full));
    var n := Sealed(e, full, end, pad);
    SwapHeaderLocal(SwapHeader(g), n);
    SwapHeaderLocal(g, g);
    SwapHeaderLocal(n, n);
    SwapHeaderTwice(g);
  }

  /** The header swap reads and writes the header only. */
  lemma SwapHeaderLocal(s: seq<octet>, t: seq<octet>)
    requires |s| == |t| >= MSG_SIZE && forall k :: 0 <= k < MSG_SIZE ==> s[k] == t[k]
    ensures SwapHeader(s)[..MSG_SIZE] == SwapHeader(t)[..MSG_SIZE]
    ensures SwapHeader(s)[MSG_SIZE..] == s[MSG_SIZE..]
  {
  }

  /** Name pads are inside the recorded TLVs. */
  lemma PaddedOutside(s: seq<octet>, tlvs: seq<Tlv>, i: nat)
    requires Tiled(tlvs) && TlvsFit(s, tlvs)
    requires i < |s| && (i < MSG_SIZE || TlvsEnd(tlvs) <= i)
    ensures NamesPadded(s, tlvs)[i] == s[i]
  {
    hide NamePadAt, NameFits;
    forall k | 0 <= k < |tlvs|
      ensures NamePadAt(s, tlvs[k]) != i
    {
      TiledBounds(tlvs, k);
      NamePadInside(s, tlvs[k]);
    }
  }

  /** The conversion loop leaves the header and the octets after the TLVs. */
  lemma EncodedFrame(s: seq<octet>, tlvs: seq<Tlv>, i: nat)
    requires Tiled(tlvs) && TlvsFit(s, tlvs)
    requires i < |s| && (i < MSG_SIZE || TlvsEnd(tlvs) <= i)
    ensures EncodeTlvs(s, tlvs, 0).1[i] == s[i]
  {
    hide NameFits;
    if tlvs != [] {
      TiledBounds(tlvs, 0);
    }
    EncodeOutside(s, tlvs, 0, i);
  }

  lemma BuiltIsLong(id: u16, t: seq<octet>)
    requires BuiltTlv(id, t)
    ensures |t| > TLV_HDR
  {
  }

  /** The converted TLVs of s in n, their padded host forms in d. */
  lemma CodedBy(s: seq<octet>, tlvs: seq<Tlv>, n: seq<octet>, d: seq<octet>)
    requires Tiled(tlvs) && TlvsFit(s, tlvs) && TlvsBuilt(s, tlvs) && TlvsEnd(tlvs) <= |s|
    requires EncodeTlvs(s, tlvs, 0).0 && |n| == |d| == |s|
    requires forall i :: MSG_SIZE <= i < TlvsEnd(tlvs) ==> n[i] == EncodeTlvs(s, tlvs, 0).1[i]
    requires forall i :: MSG_SIZE <= i < TlvsEnd(tlvs) ==> d[i] == NamesPadded(s, tlvs)[i]
    ensures Coded(s, n, d, tlvs)
  {
    hide BuiltTlv, EncodeTlv, HostTlv, ZeroPad, NameFits, NamesPadded, EncodeTlvs, Tiled;
    var e := EncodeTlvs(s, tlvs, 0).1;
    EncodedTlvs(s, tlvs, 0);
    TailKeepsTlvs(e, n, tlvs);
    TailKeepsTlvs(NamesPadded(s, tlvs), d, tlvs);
    forall k | 0 <= k < |tlvs|
      ensures TlvOctets(d, tlvs[k]) == ZeroPad(tlvs[k].id, TlvOctets(s, tlvs[k])) && tlvs[k].len > TLV_HDR
    {
      PaddedTlv(s, tlvs, k);
      BuiltIsLong(tlvs[k].id, TlvOctets(s, tlvs[k]));
    }
  }

  lemma PadDecodes(pad: nat)
    requires TLV_HDR <= pad <= MAX_MESSAGE
    ensures DecodeTlv(PadOctets(pad)) == Accepted(PAD, pad, SwapTlv(PAD, PadOctets(pad)))
  {
    var h := SwapTlvHeader(PadOctets(pad));
    assert Get16(h, 0) == PAD && Get16(h, 2) == pad - TLV_HDR;
  }

  /** The parse loop at the PAD of a built message. */
  lemma ScanPad(z: TlvScan)
    requires z.at + z.size <= |z.octets| && |z.tlvs| <= MAX_TLVS && z.size <= MAX_MESSAGE
    requires z.size > 0 ==> z.size >= TLV_HDR && z.octets[z.at..z.at + z.size] == PadOctets(z.size)
    ensures ScanTlvs(z) ==
            if z.size > TLV_HDR && |z.tlvs| < MAX_TLVS then
              PadDecodes(z.size);
              TlvScan(Splice(z.octets, z.at, SwapTlv(PAD, PadOctets(z.size))),
                      z.at + z.size, 0, z.tlvs + [Tlv(z.at, z.size, PAD)])
            else z
  {
    if z.size > TLV_HDR && |z.tlvs| < MAX_TLVS {
      PadDecodes(z.size);
      ScanOne(z, PAD, z.size, SwapTlv(PAD, PadOctets(z.size)));
    }
  }

  /** buildDone, once it succeeds, converts the TLVs and seals the message. */
  lemma BuildDoneIs(w: Work, p: Params, size: nat)
    requires Building(w, p) && BuildDone(w, size).0
    ensures SizeAccepted(w, size) && EncodeTlvs(w.octets, w.msg.tlvs, 0).0
    ensures var full := FullSize(w, size);
      && BuildDone(w, size).1.used == full
      && BuildDone(w, size).1.octets ==
         Sealed(EncodeTlvs(w.octets, w.msg.tlvs, 0).1, full, w.msg.end, full - w.msg.end)
  {
    hide EncodeTlvs, Sealed, HeaderOctets, TlvsBuilt, Tiled, TlvsFit;
  }

  /** How a built buffer n and the read-back d relate to the octets s before building. */
  ghost predicate BuiltAs(s: seq<octet>, tlvs: seq<Tlv>, full: nat, end: nat, n: seq<octet>, d: seq<octet>)
    requires Tiled(tlvs) && TlvsFit(s, tlvs)
  {
    && |n| == |d| == |s| && MSG_SIZE <= end <= full <= |s| && full <= MAX_MESSAGE
    && (full == end || full - end >= TLV_HDR)
    && SwapHeader(n)[..MSG_SIZE] == d[..MSG_SIZE] == Splice(s, 2, Put16(full))[..MSG_SIZE]
    && SwapHeader(n)[MSG_SIZE..] == n[MSG_SIZE..]
    && (forall i :: MSG_SIZE <= i < end ==> n[i] == EncodeTlvs(s, tlvs, 0).1[i])
    && (forall i :: MSG_SIZE <= i < end ==> d[i] == NamesPadded(s, tlvs)[i])
    && (full > end ==> n[end..full] == PadOctets(full - end))
    && n[full..] == d[full..]
  }

  lemma BuiltRegions(w: Work, p: Params, size: nat)
    requires Building(w, p) && BuildDone(w, size).0
    ensures SizeAccepted(w, size) && EncodeTlvs(w.octets, w.msg.tlvs, 0).0
    ensures BuildDone(w, size).1.used == FullSize(w, size)
    ensures BuiltAs(w.octets, w.msg.tlvs, FullSize(w, size), w.msg.end, BuildDone(w, size).1.octets, ReadBack(w, size))
  {
    hide SwapTlv, PadOctets, NamesPadded, EncodeTlvs, Sealed, HeaderOctets, TlvsBuilt, Tiled, TlvsFit, SwapHeader,
      MinTlvSize, BuildDone, BuiltAs;
    var s, tlvs, full, end := w.octets, w.msg.tlvs, FullSize(w, size), w.msg.end;
    BuildDoneIs(w, p, size);
    var e, f := EncodeTlvs(s, tlvs, 0).1, NamesPadded(s, tlvs);
    forall i | 0 <= i < |s| && (i < MSG_SIZE || end <= i)
      ensures e[i] == s[i] && f[i] == s[i]
    {
      EncodedFrame(s, tlvs, i);
      PaddedOutside(s, tlvs, i);
    }
    var x := ReadBack(w, size)[end..full];
    assert ReadBack(w, size) == Splice(Splice(f, 2, Put16(full)), end, x);
    Regions(s, tlvs, full, end, x);
  }

  lemma Regions(s: seq<octet>, tlvs: seq<Tlv>, full: nat, end: nat, x: seq<octet>)
    requires Tiled(tlvs) && TlvsFit(s, tlvs)
    requires MSG_SIZE <= end <= full <= |s| <= MAX_MESSAGE && |x| == full - end
    requires full == end || full - end >= TLV_HDR
    requires forall i :: 0 <= i < |s| && (i < MSG_SIZE || end <= i) ==>
               EncodeTlvs(s, tlvs, 0).1[i] == s[i] && NamesPadded(s, tlvs)[i] == s[i]
    ensures BuiltAs(s, tlvs, full, end, Sealed(EncodeTlvs(s, tlvs, 0).1, full, end, full - end),
                    Splice(Splice(NamesPadded(s, tlvs), 2, Put16(full)), end, x))
  {
    hide PadOctets, NamesPadded, EncodeTlvs, Sealed, Tiled, TlvsFit, SwapHeader, Put16, Splice, TlvsEnd, NameFits, EncodeTlv;
    var e, f := EncodeTlvs(s, tlvs, 0).1, NamesPadded(s, tlvs);
    SealedOctets(e, full, end, full - end);
    SplicedRegions(s, e, f, full, end, x, Sealed(e, full, end, full - end));
  }

  lemma SplicedRegions(s: seq<octet>, e: seq<octet>, f: seq<octet>, full: nat, end: nat, x: seq<octet>, n: seq<octet>)
    requires MSG_SIZE <= end <= full <= |s| <= MAX_MESSAGE && |x| == full - end && |e| == |f| == |n| == |s|
    requires forall i :: 0 <= i < |s| && (i < MSG_SIZE || end <= i) ==> e[i] == s[i] && f[i] == s[i]
    requires n[MSG_SIZE..end] == e[MSG_SIZE..end] && n[full..] == e[full..]
    ensures var d := Splice(Splice(f, 2, Put16(full)), end, x);
      && Splice(e, 2, Put16(full))[..MSG_SIZE] == d[..MSG_SIZE] == Splice(s, 2, Put16(full))[..MSG_SIZE]
      && (forall i :: MSG_SIZE <= i < end ==> n[i] == e[i] && d[i] == f[i])
      && n[full..] == d[full..]
  {
    hide Put16, Splice;
    assert forall i :: MSG_SIZE <= i < end ==> n[i] == n[MSG_SIZE..end][i - MSG_SIZE] == e[MSG_SIZE..end][i - MSG_SIZE];
    assert forall i :: full <= i < |s| ==> n[i] == n[full..][i - full] == e[full..][i - full];
  }

  /**
   Build and parse round trip.  For every message under construction and
   every size buildDone accepts: the header on the wire is the parameters,
   big-endian; parse accepts it iff flagField2 is below 64, and then returns
   the parameters, the table of TLVs in order, and the host-order octets.
   */
  lemma BuildThenParse(w: Work, p: Params, size: nat)
    requires Building(w, p) && BuildDone(w, size).0
    ensures var b := BuildDone(w, size).1;
      && |b.octets| == |w.octets| && SizeAccepted(w, size)
      && b.used == FullSize(w, size) == Wire16(b.octets, 2)
      && WireParams(b.octets) == p
      && (Parse(b.octets, b.used).Parsed? <==> p.flagField2 < 0x40)
      && (p.flagField2 < 0x40 ==>
            Parse(b.octets, b.used) == Parsed(ReadBack(w, size), p, ReadBackMsg(w, size)))
  {
    hide SwapTlv, PadOctets, HeaderOctets, EncodeTlvs, HeaderAccepted, ParamsAt, WireParams, ScanTlvs, ReadBack, BuildDone,
      Tiled, TlvsFit, NamesPadded, SwapHeader, Coded, TlvsBuilt, MinTlvSize, Get16, Wire16, Put16;
    BuiltRegions(w, p, size);
    var n, d := BuildDone(w, size).1.octets, ReadBack(w, size);
    HeaderOrders(n);
    BuiltHeader(w, p, size, SwapHeader(n));
    BuiltHeader(w, p, size, d);
    ScanWhole(w, p, size, n);
  }

  /** The header of a built message, in host order. */
  lemma BuiltHeader(w: Work, p: Params, size: nat, h: seq<octet>)
    requires Building(w, p) && SizeAccepted(w, size) && |h| == |w.octets|
    requires h[..MSG_SIZE] == Splice(w.octets, 2, Put16(FullSize(w, size)))[..MSG_SIZE]
    ensures ParamsAt(h) == p && (HeaderAccepted(h) <==> p.flagField2 < 0x40)
    ensures Get16(h, 2) == FullSize(w, size) && h[0] % 16 == p.kind
  {
    hide SwapTlv, HeaderOctets, HeaderAccepted, TlvsBuilt, Tiled, TlvsFit;
    assert forall k :: 0 <= k < MSG_SIZE ==> h[k] == h[..MSG_SIZE][k];
    assert forall k :: 0 <= k < MSG_SIZE ==> w.octets[k] == w.octets[..MSG_SIZE][k];
    HeaderHolds(p, h);
    SpliceFits(w.octets, h, Put16(FullSize(w, size)));
  }

  lemma SpliceFits(s: seq<octet>, h: seq<octet>, f: seq<octet>)
    requires |s| == |h| >= MSG_SIZE && |f| == 2 && h[..MSG_SIZE] == Splice(s, 2, f)[..MSG_SIZE]
    ensures Get16(h, 2) == Get16(f, 0)
  {
    assert h[..MSG_SIZE][2] == f[0] && h[..MSG_SIZE][3] == f[1];
  }

  /** The whole parse loop on a built message n. */
  lemma ScanWhole(w: Work, p: Params, size: nat, n: seq<octet>)
    requires Building(w, p) && SizeAccepted(w, size) && EncodeTlvs(w.octets, w.msg.tlvs, 0).0
    requires BuiltAs(w.octets, w.msg.tlvs, FullSize(w, size), w.msg.end, n, ReadBack(w, size))
    ensures var m, full := ReadBackMsg(w, size), FullSize(w, size);
      ScanTlvs(TlvScan(SwapHeader(n), MSG_SIZE, full - MSG_SIZE, [])) ==
      TlvScan(ReadBack(w, size), m.end, full - m.end, m.tlvs)
  {
    hide Building, ScanTlvs, SwapTlv, PadOctets, ReadBack, ReadBackMsg, BuiltAs, SizeAccepted, EncodeTlvs, SwapHeader;
    ScanTable(w, p, size, n);
    ScanRest(w, p, size, n);
  }

  /** The parse loop up to the last TLV that was recorded. */
  lemma ScanTable(w: Work, p: Params, size: nat, n: seq<octet>)
    requires Building(w, p) && SizeAccepted(w, size) && EncodeTlvs(w.octets, w.msg.tlvs, 0).0
    requires BuiltAs(w.octets, w.msg.tlvs, FullSize(w, size), w.msg.end, n, ReadBack(w, size))
    ensures |n| == |w.octets| && w.msg.end <= FullSize(w, size) <= |n| && w.msg.tlvs[..|w.msg.tlvs|] == w.msg.tlvs
    ensures ScanTlvs(TlvScan(SwapHeader(n), MSG_SIZE, FullSize(w, size) - MSG_SIZE, [])) ==
      ScanTlvs(ScanAfter(n, ReadBack(w, size), w.msg.tlvs, |w.msg.tlvs|, FullSize(w, size)))
  {
    hide SwapTlv, PadOctets, HeaderOctets, EncodeTlvs, ScanTlvs, Tiled, NamesPadded, SwapHeader, Coded, TlvsBuilt, MinTlvSize,
      NameFits, ReadBack, TlvsFit, Put16;
    var d, full, tlvs := ReadBack(w, size), FullSize(w, size), w.msg.tlvs;
    CodedBy(w.octets, tlvs, n, d);
    TiledPrefix(tlvs, 0);
    TiledPrefix(tlvs, |tlvs|);
    assert tlvs[..|tlvs|] == tlvs && tlvs[..0] == [];
    ScanBuilt(w.octets, n, d, tlvs, 0, full);
    assert SwapHeader(n) == d[..MSG_SIZE] + n[MSG_SIZE..];
  }

  /** The rest of the parse loop: the PAD, if it is recorded. */
  lemma ScanRest(w: Work, p: Params, size: nat, n: seq<octet>)
    requires Building(w, p) && SizeAccepted(w, size) && w.msg.tlvs[..|w.msg.tlvs|] == w.msg.tlvs
    requires BuiltAs(w.octets, w.msg.tlvs, FullSize(w, size), w.msg.end, n, ReadBack(w, size))
    ensures |n| == |w.octets| && w.msg.end <= FullSize(w, size) <= |n|
    ensures var m, full := ReadBackMsg(w, size), FullSize(w, size);
      ScanTlvs(ScanAfter(n, ReadBack(w, size), w.msg.tlvs, |w.msg.tlvs|, full)) ==
      TlvScan(ReadBack(w, size), m.end, full - m.end, m.tlvs)
  {
    hide SwapTlv, PadOctets, HeaderOctets, ScanTlvs, Tiled, NamesPadded, SwapHeader, TlvsBuilt, MinTlvSize, NameFits, ReadBack,
      TlvsFit, Put16, EncodeTlvs, Splice, BuiltTlv, ReadBackMsg;
    ScanPadded(w, size, n, ReadBack(w, size));
  }

  /** The table is scanned, n holds the PAD. */
  lemma ScanPadded(w: Work, size: nat, n: seq<octet>, d: seq<octet>)
    requires w.msg.Msg? && Ready(w) && w.msg.len == w.msg.end == TlvsEnd(w.msg.tlvs) && SizeAccepted(w, size)
    requires w.msg.tlvs[..|w.msg.tlvs|] == w.msg.tlvs && |n| == |d| == |w.octets| && d == ReadBack(w, size)
    requires FullSize(w, size) == w.msg.end || FullSize(w, size) - w.msg.end >= TLV_HDR
    requires n[FullSize(w, size)..] == d[FullSize(w, size)..]
    requires FullSize(w, size) > w.msg.end ==>
               n[w.msg.end..FullSize(w, size)] == PadOctets(FullSize(w, size) - w.msg.end)
    ensures var m, full := ReadBackMsg(w, size), FullSize(w, size);
      ScanTlvs(ScanAfter(n, d, w.msg.tlvs, |w.msg.tlvs|, full)) == TlvScan(d, m.end, full - m.end, m.tlvs)
  {
    hide SwapTlv, PadOctets, ScanTlvs, Tiled, MinTlvSize, NameFits, ReadBack, TlvsFit, Splice, TlvsEnd;
    var full := FullSize(w, size);
    Tail(n, d, w.msg.end, full);
    ScanPad(ScanAfter(n, d, w.msg.tlvs, |w.msg.tlvs|, full));
    FinalOctets(w, size, n, d);
  }

  /** The octets after the parse loop are those expected. */
  lemma FinalOctets(w: Work, size: nat, n: seq<octet>, d: seq<octet>)
    requires w.msg.Msg? && Ready(w) && w.msg.len == w.msg.end && SizeAccepted(w, size)
    requires |n| == |d| && d == ReadBack(w, size)
    requires n[FullSize(w, size)..] == d[FullSize(w, size)..]
    requires FullSize(w, size) > w.msg.end ==>
               n[w.msg.end..FullSize(w, size)] == PadOctets(FullSize(w, size) - w.msg.end)
    ensures var z := d[..w.msg.end] + n[w.msg.end..];
      d == if PadRecorded(w, size) then Splice(z, w.msg.end, SwapTlv(PAD, PadOctets(FullSize(w, size) - w.msg.end))) else z
  {
    hide SwapTlv, PadOctets, NamesPadded, NameFits, TlvsFit, Tiled;
    var full, end := FullSize(w, size), w.msg.end;
    var z := d[..end] + n[end..];
    if full > end {
      var f := if PadRecorded(w, size) then SwapTlv(PAD, PadOctets(full - end)) else PadOctets(full - end);
      assert d[end..full] == f;
      assert d == d[..end] + d[end..full] + d[full..];
      assert n[end..] == n[end..full] + n[full..];
    }
  }
}
