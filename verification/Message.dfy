/**
 The message object of src/msg.c as operations on values: a buffer, how much
 of it is used, and the message's bookkeeping.  The class in
 PtpMessage.dfy does the same in place and is proved equal to these.
 */
module Message {
  import opened Octets
  import opened Wrappers
  import opened Time
  import opened Wire

  const SYNC: octet := 0
  const FOLLOW_UP: octet := 8

  /** struct ptp_params_t */
  datatype Params = Params(
    kind: octet,
    domainNumber: octet,
    correctionField: i64,
    sequenceId: u16,
    flagField2: octet,
    timestamp: PtpTime,
    useTwoSteps: bool)

  /** One entry of the TLV table: where the TLV is in the buffer, its length with header, its id. */
  datatype Tlv = Tlv(at: nat, len: nat, id: u16)

  /** struct ptp_msg_t: no buffer attached, or type, length, first unused octet, octets left, TLV table. */
  datatype Msg = Detached | Msg(kind: octet, len: nat, end: nat, left: nat, tlvs: seq<Tlv>)

  /** The attached buffer (its octets and its data length) and the message. */
  datatype Work = Work(octets: seq<octet>, used: nat, msg: Msg)

  /** The value of controlField for the two supported message types. */
  function ControlField(kind: octet): Option<octet> {
    if kind == SYNC then Some(0)
    else if kind == FOLLOW_UP then Some(2)
    else None
  }

  function TlvOctets(s: seq<octet>, t: Tlv): seq<octet>
    requires t.at + t.len <= |s|
  {
    s[t.at..t.at + t.len]
  }

  function Splice(s: seq<octet>, at: nat, t: seq<octet>): (r: seq<octet>)
    requires at + |t| <= |s|
    ensures |r| == |s|
    ensures forall i :: 0 <= i < |s| ==> r[i] == if at <= i < at + |t| then t[i - at] else s[i]
  {
    s[..at] + t + s[at + |t|..]
  }

  /** The first octet after the recorded TLVs. */
  function TlvsEnd(tlvs: seq<Tlv>): nat {
    if tlvs == [] then MSG_SIZE else tlvs[|tlvs| - 1].at + tlvs[|tlvs| - 1].len
  }

  /** The TLVs follow the header and each other without gaps. */
  predicate Tiled(tlvs: seq<Tlv>) {
    |tlvs| > 0 ==>
      var n := |tlvs| - 1;
      && Tiled(tlvs[..n])
      && tlvs[n].at == TlvsEnd(tlvs[..n])
      && tlvs[n].len >= TLV_HDR
      && tlvs[n].len >= MinTlvSize(tlvs[n].id)
  }

  lemma {:induction false} TiledBounds(tlvs: seq<Tlv>, k: nat)
    requires Tiled(tlvs) && k < |tlvs|
    ensures MSG_SIZE <= tlvs[k].at && tlvs[k].at + tlvs[k].len <= TlvsEnd(tlvs)
    ensures tlvs[k].len >= TLV_HDR && tlvs[k].len >= MinTlvSize(tlvs[k].id)
  {
    var n := |tlvs| - 1;
    if k < n {
      TiledBounds(tlvs[..n], k);
    } else if n > 0 {
      TiledBounds(tlvs[..n], n - 1);
    }
  }

  lemma {:induction false} TiledOrder(tlvs: seq<Tlv>, j: nat, k: nat)
    requires Tiled(tlvs) && j < k < |tlvs|
    ensures tlvs[j].at + tlvs[j].len <= tlvs[k].at
  {
    var n := |tlvs| - 1;
    if k < n {
      TiledOrder(tlvs[..n], j, k);
    } else {
      TiledBounds(tlvs[..n], j);
    }
  }

  /** The TLVs from the i-th on lie in the buffer and every time-zone name lies in its TLV. */
  predicate TlvsFit(s: seq<octet>, tlvs: seq<Tlv>, i: nat := 0) {
    forall k :: i <= k < |tlvs| ==>
      tlvs[k].at + tlvs[k].len <= |s| && NameFits(tlvs[k].id, TlvOctets(s, tlvs[k]))
  }

  /** What every operation keeps: the table tiles a part of the used octets, and end + left is the buffer size. */
  predicate Laid(w: Work) {
    w.msg.Msg? ==>
      && MSG_SIZE <= w.msg.end
      && w.msg.end + w.msg.left == |w.octets| <= MAX_MESSAGE
      && |w.msg.tlvs| <= MAX_TLVS
      && Tiled(w.msg.tlvs)
      && TlvsEnd(w.msg.tlvs) <= w.msg.end
  }

  /** What buildDone needs besides: every time-zone name lies in its TLV. */
  predicate Ready(w: Work) {
    Laid(w) && (w.msg.Msg? ==> TlvsFit(w.octets, w.msg.tlvs))
  }

  // init

  function HeaderOctets(p: Params): (h: seq<octet>)
    requires ControlField(p.kind).Some?
    ensures |h| == MSG_SIZE
  {
    [p.kind + 0x30, 0x12, 0, 0, p.domainNumber, 0, if p.useTwoSteps then 6 else 4, p.flagField2]
    + Put64(Bits64(p.correctionField))
    + seq(14, _ => 0)
    + Put16(p.sequenceId)
    + [ControlField(p.kind).value, 0x7f]
    + PtpOctets(p.timestamp)
  }

  function Init(w: Work, p: Params): (r: (bool, Work)) {
    if |w.octets| < MSG_SIZE || ControlField(p.kind).None? then (false, w)
    else
      (true, Work(
        HeaderOctets(p) + w.octets[MSG_SIZE..],
        MSG_SIZE,
        Msg(p.kind, MSG_SIZE, MSG_SIZE, |w.octets| - MSG_SIZE, [])))
  }

  // addTlv, addCSPTPReqTlv

  /** The size addTlv gives the TLV filled in at the front of the unused octets; None where it fails. */
  function FilledSize(id: u16, s: seq<octet>): (r: Option<nat>)
    requires |s| >= MinTlvSize(id)
    ensures r.Some? ==> MinTlvSize(id) <= r.value <= 48 && r.value >= 20
  {
    if id == ALT_TIME then
      var l := MakeEven(s[19]) % 0x100; // a uint8_t
      if l > MAX_TZ_LEN then None else Some(20 + l)
    else if id == CSPTP_STATUS then
      var add := AddressSize(Get16(s, 28));
      if add == 0 then None else Some(32 + add)
    else if id == CSPTP_RESPONSE then Some(28)
    else None // requests and pads have their own calls
  }

  /** The bookkeeping of a TLV of sz octets recorded at the end. */
  function Record(w: Work, sz: nat, id: u16): Work
    requires w.msg.Msg? && sz <= w.msg.left
  {
    var m := w.msg;
    Work(
      w.octets,
      if m.len + sz <= |w.octets| then m.len + sz else w.used,
      Msg(m.kind, m.len + sz, m.end + sz, m.left - sz, m.tlvs + [Tlv(m.end, sz, id)]))
  }

  /** The type and length of a TLV stored in front of the unused octets. */
  function WithTlvHeader(w: Work, id: u16, sz: nat): Work
    requires w.msg.Msg? && TLV_HDR <= sz <= MAX_MESSAGE && w.msg.end + sz <= |w.octets|
  {
    w.(octets := Splice(w.octets, w.msg.end, Put16(id) + Put16(sz - TLV_HDR)))
  }

  function AddTlv(w: Work, id: u16): (r: (bool, Work))
    requires Laid(w)
  {
    if w.msg.Detached? || |w.msg.tlvs| == MAX_TLVS || w.msg.left < TLV_HDR then (false, w)
    else
      var sz := MinTlvSize(id);
      if sz == 0 || sz > w.msg.left then (false, w)
      else
        var typed := w.(octets := Splice(w.octets, w.msg.end, Put16(id))); // stored before the checks
        match FilledSize(id, w.octets[w.msg.end..])
        case None => (false, typed)
        case Some(full) =>
          if full > w.msg.left then (false, typed)
          else (true, Record(WithTlvHeader(w, id, full), full, id))
  }

  function AddReqTlv(w: Work, flags: octet): (r: (bool, Work))
    requires Laid(w)
  {
    if w.msg.Detached? || |w.msg.tlvs| == MAX_TLVS || w.msg.left < 8 then (false, w)
    else
      var t := Put16(CSPTP_REQUEST) + Put16(4) + [flags % 4, 0, 0, 0];
      (true, Record(w.(octets := Splice(w.octets, w.msg.end, t)), 8, CSPTP_REQUEST))
  }

  // buildDone

  /** The loop of buildDone: the TLVs from the i-th on are converted until one fails. */
  function EncodeTlvs(s: seq<octet>, tlvs: seq<Tlv>, i: nat): (r: (bool, seq<octet>))
    requires i <= |tlvs| && Tiled(tlvs) && TlvsFit(s, tlvs, i)
    ensures |r.1| == |s|
    decreases |tlvs| - i
  {
    if i == |tlvs| then (true, s)
    else
      TiledBounds(tlvs, i);
      var e := EncodeTlv(tlvs[i].id, TlvOctets(s, tlvs[i]));
      var s' := Splice(s, tlvs[i].at, e.1);
      if !e.0 then (false, s')
      else
        SpliceKeepsLater(s, tlvs, i, e.1);
        EncodeTlvs(s', tlvs, i + 1)
  }

  lemma SpliceKeepsLater(s: seq<octet>, tlvs: seq<Tlv>, i: nat, e: seq<octet>)
    requires i < |tlvs| && Tiled(tlvs) && TlvsFit(s, tlvs, i) && |e| == tlvs[i].len
    ensures forall k :: i < k < |tlvs| ==> TlvOctets(Splice(s, tlvs[i].at, e), tlvs[k]) == TlvOctets(s, tlvs[k])
    ensures TlvsFit(Splice(s, tlvs[i].at, e), tlvs, i + 1)
  {
    hide Tiled, NameFits, MinTlvSize, Splice;
    TiledBounds(tlvs, i);
    forall k | i < k < |tlvs|
      ensures TlvOctets(Splice(s, tlvs[i].at, e), tlvs[k]) == TlvOctets(s, tlvs[k])
    {
      TiledOrder(tlvs, i, k);
      assert tlvs[k].at + tlvs[k].len <= |s|;
      SpliceBefore(s, tlvs[i].at, e, tlvs[k]);
    }
  }

  lemma SpliceBefore(s: seq<octet>, at: nat, e: seq<octet>, t: Tlv)
    requires at + |e| <= t.at && t.at + t.len <= |s|
    ensures TlvOctets(Splice(s, at, e), t) == TlvOctets(s, t)
  {
  }

  /** A PAD TLV of n octets, in network order, its data zero. */
  function PadOctets(n: nat): (r: seq<octet>)
    requires TLV_HDR <= n <= MAX_MESSAGE
    ensures |r| == n
  {
    [PAD / 0x100, PAD % 0x100, (n - TLV_HDR) / 0x100, (n - TLV_HDR) % 0x100] + seq(n - TLV_HDR, _ => 0)
  }

  /** The size a caller may ask of buildDone: zero for the length so far, else even, no shrinking, in the buffer. */
  predicate SizeAccepted(w: Work, size: nat)
    requires w.msg.Msg?
  {
    size == 0 ||
    (&& size % 2 == 0
     && w.msg.len <= size <= |w.octets|
     && (size == w.msg.len || TLV_HDR <= size - w.msg.len <= w.msg.left))
  }

  /** The last steps of buildDone: messageLength stored, the header converted, the PAD written. */
  function Sealed(e: seq<octet>, full: nat, end: nat, pad: nat): (r: seq<octet>)
    requires MSG_SIZE <= end && end + pad <= |e| <= MAX_MESSAGE
    ensures |r| == |e|
  {
    var s := SwapHeader(Splice(e, 2, Put16(full % 0x1_0000)));
    if pad < TLV_HDR then s else Splice(s, end, PadOctets(pad))
  }

  /** A message whose TLVs are converted, sealed at its full size; the PAD is recorded if the table has room. */
  function Finished(w: Work, full: nat): Work
    requires w.msg.Msg? && |w.octets| <= MAX_MESSAGE && w.msg.len <= full
    requires MSG_SIZE <= w.msg.end && w.msg.end + (full - w.msg.len) <= |w.octets|
    requires full - w.msg.len <= w.msg.left
  {
    var m := w.msg;
    var pad := full - m.len;
    Work(
      Sealed(w.octets, full, m.end, pad),
      if full <= |w.octets| then full else w.used,
      if pad < TLV_HDR then m
      else
        Msg(m.kind, m.len + pad, m.end + pad, m.left - pad,
            if |m.tlvs| < MAX_TLVS then m.tlvs + [Tlv(m.end, pad, PAD)] else m.tlvs))
  }

  function BuildDone(w: Work, size: nat): (r: (bool, Work))
    requires Ready(w)
  {
    if w.msg.Detached? || !SizeAccepted(w, size) then (false, w)
    else
      var e := EncodeTlvs(w.octets, w.msg.tlvs, 0);
      var converted := w.(octets := e.1);
      if !e.0 then (false, converted)
      else (true, Finished(converted, if size == 0 then w.msg.len else size))
  }

  // parse

  /** The message parameters in a header in host order. */
  function ParamsAt(h: seq<octet>): Params
    requires |h| >= MSG_SIZE
  {
    Params(h[0] % 16, h[4], Signed64(Get64(h, 8)), Get16(h, 30), h[7], PtpAt(h, 34), h[6] / 2 % 2 == 1)
  }

  /** The checks of parse on a header in host order. */
  predicate HeaderAccepted(h: seq<octet>)
    requires |h| >= MSG_SIZE
  {
    && ControlField(h[0] % 16) == Some(h[32])
    && h[33] == 0x7f
    && h[1] == 0x12
    && h[0] / 16 == 3
    && (forall k :: 20 <= k < 30 ==> h[k] == 0) // sourcePortIdentity
    && h[5] == 0
    && (h[6] == 4 || h[6] == 6) // unicast, with or without two steps
    && h[7] < 0x40
  }

  datatype TlvScan = TlvScan(octets: seq<octet>, at: nat, size: nat, tlvs: seq<Tlv>)

  /** The loop of parse: TLVs are accepted while more than a TLV header is left and the table has room. */
  function ScanTlvs(z: TlvScan): (r: TlvScan)
    requires z.at + z.size <= |z.octets| && |z.tlvs| <= MAX_TLVS
    ensures r.at + r.size == z.at + z.size && |r.octets| == |z.octets| && |r.tlvs| <= MAX_TLVS
    decreases MAX_TLVS - |z.tlvs|
  {
    if z.size <= TLV_HDR || |z.tlvs| >= MAX_TLVS then z
    else
      match DecodeTlv(z.octets[z.at..z.at + z.size])
      case Refused(d) => z.(octets := Splice(z.octets, z.at, d))
      case Accepted(id, len, d) =>
        ScanTlvs(TlvScan(Splice(z.octets, z.at, d), z.at + len, z.size - len, z.tlvs + [Tlv(z.at, len, id)]))
  }

  datatype ParseResult = Rejected(octets: seq<octet>) | Parsed(octets: seq<octet>, params: Params, msg: Msg)

  /** A received message that passes every check before the TLV loop: parse goes on to its body. */
  predicate ReachesTlvs(s: seq<octet>, used: nat) {
    && MSG_SIZE <= used <= |s|
    && var h := SwapHeader(s);
      Get16(h, 2) <= used && HeaderAccepted(h)
  }

  /**
   parse subtracts the header size from messageLength without a check of its
   own, so a message that gets that far must claim at least a header.
   */
  predicate ClaimsHeader(s: seq<octet>, used: nat) {
    MSG_SIZE <= used <= |s| && HeaderAccepted(SwapHeader(s)) ==> Wire16(s, 2) >= MSG_SIZE
  }

  function Parse(s: seq<octet>, used: nat): (r: ParseResult)
    requires ClaimsHeader(s, used)
    ensures |r.octets| == |s|
    ensures r.Parsed? ==> r.msg.Msg?
  {
    if used > |s| || used < MSG_SIZE then Rejected(s)
    else
      var h := SwapHeader(s);
      var len := Get16(h, 2);
      if len > used || !HeaderAccepted(h) then Rejected(h)
      else
        var z := ScanTlvs(TlvScan(h, MSG_SIZE, len - MSG_SIZE, []));
        Parsed(z.octets, ParamsAt(z.octets),
               Msg(h[0] % 16, len, z.at, z.size + |s| - len, z.tlvs))
  }
}
