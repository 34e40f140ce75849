/**
 The messages of the client/service exchange: what src/main_client.c and
 src/main_service.c build with the message calls, and what they read.
 */
module Dialogue {
  import opened Octets
  import opened Wrappers
  import opened Time
  import opened Wire
  import opened Message
  import opened Builder
  import opened RoundTrip
  import opened Parsing
  import opened Sizes
  import opened Parts

  // Requests, and Follow_Up messages from either side.

  /** init and buildDone */
  function BuildPlain(w: Work, p: Params, size: nat): (bool, Work)
    requires |w.octets| <= MAX_MESSAGE
  {
    var i := Init(w, p);
    if !i.0 then i
    else
      InitBuilds(w, p);
      BuildDone(i.1, size)
  }

  /** init, addCSPTPReqTlv and buildDone */
  function BuildRequest(w: Work, p: Params, flags: octet, size: nat): (bool, Work)
    requires |w.octets| <= MAX_MESSAGE
  {
    var i := Init(w, p);
    if !i.0 then i
    else
      InitBuilds(w, p);
      var a := AddReqTlv(i.1, flags);
      if !a.0 then a
      else
        AddReqTlvBuilds(i.1, p, flags);
        BuildDone(a.1, size)
  }

  // Responses.

  /** struct ifClk_t: what the service tells of its clock; the name ends at its first NUL. */
  datatype Clock = Clock(
    org: seq<octet>, sub: seq<octet>,
    priority1: octet, clockClass: octet, accuracy: octet, variance: u16, priority2: octet,
    utcOffset: u16, identity: seq<octet>,
    protocol: u16, address: seq<octet>,
    key: octet, currentOffset: u32, jumpSeconds: u32, nextJump: u64, zone: seq<octet>)
  {
    predicate Valid() {
      |org| == 3 && |sub| == 3 && |identity| == 8 && AddressSize(protocol) <= |address|
    }
  }

  // The octets the service fills in after a TLV header.

  function RespBody(clk: Clock, rx: PtpTime): (b: seq<octet>)
    requires clk.Valid()
    ensures |b| == 24 && b[..3] == clk.org && b[3..6] == clk.sub && b[6..16] == PtpOctets(rx) && b[16..] == Put64(0)
  {
    clk.org + clk.sub + PtpOctets(rx) + Put64(0)
  }

  function StatusBody(clk: Clock): (b: seq<octet>)
    requires clk.Valid()
    ensures |b| == 28 + AddressSize(clk.protocol)
    ensures b[..3] == clk.org && b[3..6] == clk.sub
    ensures b[6] == clk.priority1 && b[7] == clk.clockClass && b[8] == clk.accuracy && b[11] == clk.priority2
    ensures Get16(b, 9) == clk.variance && Get16(b, 12) == 0 && Get16(b, 14) == clk.utcOffset
    ensures b[16..24] == clk.identity
    ensures Get16(b, 24) == clk.protocol && Get16(b, 26) == AddressSize(clk.protocol)
    ensures b[28..] == clk.address[..AddressSize(clk.protocol)]
  {
    var front := clk.org + clk.sub + [clk.priority1, clk.clockClass, clk.accuracy] + Put16(clk.variance)
      + [clk.priority2] + Put16(0) + Put16(clk.utcOffset) + clk.identity;
    var n := AddressSize(clk.protocol);
    front + Put16(clk.protocol) + Put16(n) + clk.address[..n]
  }

  function AltBody(clk: Clock): (b: seq<octet>)
    requires clk.nextJump <= UINT48_MAX && |clk.zone| <= MAX_TZ_LEN
    ensures |b| == 16 + |clk.zone| && b[15] == |clk.zone| && b[16..] == clk.zone
    ensures b[0] == clk.key && Get32(b, 1) == clk.currentOffset && Get32(b, 5) == clk.jumpSeconds
    ensures GetUint48(Get16(b, 9), Get32(b, 11)) == clk.nextJump
  {
    var jump := SetUint48(clk.nextJump).value;
    [clk.key] + Put32(clk.currentOffset) + Put32(clk.jumpSeconds) + Put16(jump.0) + Put32(jump.1)
    + [|clk.zone|] + clk.zone
  }

  // The parts of a response.

  function RespPart(clk: Clock, rx: PtpTime): (q: Part)
    requires clk.Valid()
    ensures Fits(q.id, q.body) && |q.body| == 24
  {
    Part(CSPTP_RESPONSE, RespBody(clk, rx))
  }

  function StatusPart(clk: Clock): (q: Part)
    requires clk.Valid() && AddressSize(clk.protocol) != 0
    ensures Fits(q.id, q.body) && |q.body| == 28 + AddressSize(clk.protocol)
  {
    Part(CSPTP_STATUS, StatusBody(clk))
  }

  function AltPart(clk: Clock): (q: Part)
    requires clk.nextJump <= UINT48_MAX && |clk.zone| <= MAX_TZ_LEN
    ensures Fits(q.id, q.body) && |q.body| == 16 + |clk.zone|
  {
    Part(ALT_TIME, AltBody(clk))
  }

  /** What the service cannot put into a TLV. */
  predicate Tellable(clk: Clock, flags: octet) {
    && (flags % 2 == 1 ==> AddressSize(clk.protocol) != 0)
    && (flags / 2 % 2 == 1 ==> clk.nextJump <= UINT48_MAX && |clk.zone| <= MAX_TZ_LEN)
  }

  /** The parts of a response: RESPONSE, and STATUS and ALTERNATE_TIME_OFFSET_INDICATOR if the request asks for them. */
  function RespParts(clk: Clock, rx: PtpTime, flags: octet): (parts: seq<Part>)
    requires clk.Valid() && Tellable(clk, flags)
    ensures 1 <= |parts| <= 3 && parts[0] == RespPart(clk, rx)
  {
    [RespPart(clk, rx)]
    + (if flags % 2 == 1 then [StatusPart(clk)] else [])
    + (if flags / 2 % 2 == 1 then [AltPart(clk)] else [])
  }

  /** What can be told: a status for IPv4 and IPv6, a time zone with 48 bits for its next change and 10 octets for its name. */
  lemma TellableIs(clk: Clock, flags: octet)
    requires |clk.address| >= 16
    ensures clk.Valid() <==> |clk.org| == 3 && |clk.sub| == 3 && |clk.identity| == 8
    ensures Tellable(clk, flags) <==>
      && (flags % 2 == 1 ==> clk.protocol == 1 || clk.protocol == 2)
      && (flags / 2 % 2 == 1 ==> clk.nextJump < 0x1_0000_0000_0000 && |clk.zone| <= 10)
  {
  }

  /** A RESPONSE always comes first; a STATUS follows exactly if flag bit 0 is set, a time zone last exactly if bit 1 is. */
  lemma PartsAsked(clk: Clock, rx: PtpTime, flags: octet)
    requires clk.Valid() && Tellable(clk, flags)
    ensures var parts, status, zone := RespParts(clk, rx, flags), flags % 2 == 1, flags / 2 % 2 == 1;
      && |parts| == 1 + (if status then 1 else 0) + (if zone then 1 else 0)
      && parts[0] == RespPart(clk, rx) && parts[0].id == 0xff01
      && (status ==> parts[1].id == 0xf002 && parts[1] == StatusPart(clk))
      && (zone ==> parts[|parts| - 1].id == 9 && parts[|parts| - 1] == AltPart(clk))
  {
  }

  // The parts on the wire, field by field at the offsets of their layouts.

  /** Type and length, big-endian, at the front of every TLV. */
  lemma HeaderOnWire(q: Part)
    requires Fits(q.id, q.body) && |q.body| <= 44
    ensures Wire16(PartWire(q), 0) == q.id && Wire16(PartWire(q), 2) == PartSize(q) - TLV_HDR
    ensures PartHost(q)[TLV_HDR..TLV_HDR + |q.body|] == q.body
  {
    hide Fits, MinTlvSize, Put16;
    var t, n := PartHost(q), PartWire(q);
    HeaderLoads(Put16(q.id), Put16(PartSize(q) - TLV_HDR), t[4..]);
    assert t == Put16(q.id) + Put16(PartSize(q) - TLV_HDR) + t[4..];
    HeaderSwapped(q.id, t);
  }

  lemma HeaderSwapped(id: u16, t: seq<octet>)
    requires |t| >= TLV_HDR && |t| >= MinTlvSize(id)
    ensures Wire16(SwapTlv(id, t), 0) == Get16(t, 0) && Wire16(SwapTlv(id, t), 2) == Get16(t, 2)
  {
  }

  /** Octet k of a body, in the part in host order. */
  lemma BodyOctet(q: Part, k: nat)
    requires Fits(q.id, q.body) && |q.body| <= 44 && k < |q.body|
    ensures TLV_HDR + k < |PartHost(q)| && PartHost(q)[TLV_HDR + k] == q.body[k]
  {
    hide Fits, MinTlvSize;
  }

  lemma ResponseOnWire(clk: Clock, rx: PtpTime)
    requires clk.Valid()
    ensures var n := PartWire(RespPart(clk, rx));
      && |n| == 28 && Wire16(n, 0) == 0xff01 && Wire16(n, 2) == 24
      && n[4..7] == clk.org && n[7..10] == clk.sub && WirePtp(n, 10) == rx && Wire64(n, 20) == 0
  {
    hide RespBody, Fits, PartHost, PartWire, Wire16, WirePtp, Wire64;
    var q := RespPart(clk, rx);
    var b, n := q.body, PartWire(q);
    HeaderOnWire(q);
    ResponseFlips(q, b, n);
    assert n[4..7] == b[..3] && n[7..10] == b[3..6];
    IngressOnWire(b[6..16], n, rx);
    CorrectionOnWire(b[16..], n);
  }

  /** Where the octets of a RESPONSE's body are on the wire. */
  lemma ResponseFlips(q: Part, b: seq<octet>, n: seq<octet>)
    requires q.id == CSPTP_RESPONSE && Fits(q.id, q.body) && |q.body| == 24 && b == q.body && n == PartWire(q)
    ensures forall k :: 4 <= k < 10 ==> n[k] == b[k - 4]
    ensures forall k :: 10 <= k < 20 ==> 16 <= PtpFlip(k, 10) + 6 < 26 && n[k] == b[6..16][PtpFlip(k, 10) - 10]
    ensures forall k :: 20 <= k < 28 ==> n[k] == b[16..][27 - k]
  {
    hide Fits, PartHost;
    var t := PartHost(q);
    forall k: nat | k < 24
      ensures t[TLV_HDR + k] == b[k]
    {
      BodyOctet(q, k);
    }
  }

  lemma IngressOnWire(o: seq<octet>, n: seq<octet>, rx: PtpTime)
    requires o == PtpOctets(rx) && |n| == 28
    requires forall k :: 10 <= k < 20 ==> 10 <= PtpFlip(k, 10) < 20 && n[k] == o[PtpFlip(k, 10) - 10]
    ensures WirePtp(n, 10) == rx
  {
    hide PtpOctets, WirePtp, PtpAt;
    var t := n[..10] + o + n[20..];
    SwappedPtp(t, n, 10);
    PtpHere(t, 10, o);
  }

  lemma CorrectionOnWire(z: seq<octet>, n: seq<octet>)
    requires z == Put64(0) && |n| == 28 && forall k :: 20 <= k < 28 ==> n[k] == z[27 - k]
    ensures Wire64(n, 20) == 0
  {
    hide Put64;
    ZeroOctets();
    assert forall k :: 20 <= k < 28 ==> n[k] == 0;
  }

  lemma ZeroOctets()
    ensures Put64(0) == seq(8, _ => 0)
  {
  }

  lemma PtpHere(s: seq<octet>, at: nat, o: seq<octet>)
    requires at + 10 <= |s| && |o| == 10 && forall k: nat :: k < 10 ==> s[at + k] == o[k]
    ensures PtpAt(s, at) == PtpAt(o, 0)
  {
  }

  lemma Field16(b: seq<octet>, n: seq<octet>, o: nat)
    requires o + 2 <= |b| && TLV_HDR + |b| <= |n|
    requires n[TLV_HDR + o] == b[o + 1] && n[TLV_HDR + o + 1] == b[o]
    ensures Wire16(n, TLV_HDR + o) == Get16(b, o)
  {
  }

  lemma Field32(b: seq<octet>, n: seq<octet>, o: nat)
    requires o + 4 <= |b| && TLV_HDR + |b| <= |n|
    requires n[TLV_HDR + o] == b[o + 3] && n[TLV_HDR + o + 1] == b[o + 2]
    requires n[TLV_HDR + o + 2] == b[o + 1] && n[TLV_HDR + o + 3] == b[o]
    ensures Wire32(n, TLV_HDR + o) == Get32(b, o)
  {
  }

  lemma StatusOnWire(clk: Clock)
    requires clk.Valid() && AddressSize(clk.protocol) != 0
    ensures clk.protocol == 1 || clk.protocol == 2
    ensures var n, address := PartWire(StatusPart(clk)), if clk.protocol == 1 then 4 else 16;
      && |n| == (if clk.protocol == 1 then 36 else 48) && Wire16(n, 0) == 0xf002 && Wire16(n, 2) == 28 + address
      && n[4..7] == clk.org && n[7..10] == clk.sub
      && n[10] == clk.priority1 && n[11] == clk.clockClass && n[12] == clk.accuracy && Wire16(n, 13) == clk.variance
      && n[15] == clk.priority2 && Wire16(n, 16) == 0 && Wire16(n, 18) == clk.utcOffset && n[20..28] == clk.identity
      && Wire16(n, 28) == clk.protocol && Wire16(n, 30) == address
      && address <= |clk.address| && n[32..] == clk.address[..address]
  {
    hide StatusBody, Get16, Wire16, Fits, PartHost, PartWire;
    var q := StatusPart(clk);
    var b, n := q.body, PartWire(q);
    HeaderOnWire(q);
    StatusFlips(q, b, n);
    Field16(b, n, 9);
    Field16(b, n, 12);
    Field16(b, n, 14);
    Field16(b, n, 24);
    Field16(b, n, 26);
    assert n[4..7] == b[..3] && n[7..10] == b[3..6] && n[20..28] == b[16..24] && n[32..] == b[28..];
  }

  /** Where the octets of a STATUS's body are on the wire. */
  lemma StatusFlips(q: Part, b: seq<octet>, n: seq<octet>)
    requires q.id == CSPTP_STATUS && Fits(q.id, q.body) && 28 <= |q.body| <= 44 && b == q.body && n == PartWire(q)
    requires |q.body| % 2 == 0
    ensures |n| == 4 + |b|
    ensures forall k :: 0 <= k < 9 || k == 11 || 16 <= k < 24 || 28 <= k < |b| ==> n[4 + k] == b[k]
    ensures n[13] == b[10] && n[14] == b[9] && n[16] == b[13] && n[17] == b[12] && n[18] == b[15] && n[19] == b[14]
    ensures n[28] == b[25] && n[29] == b[24] && n[30] == b[27] && n[31] == b[26]
  {
    hide Fits, PartHost;
    var t := PartHost(q);
    forall k: nat | k < |b|
      ensures t[TLV_HDR + k] == b[k]
    {
      BodyOctet(q, k);
    }
    StatusSwapped(t, n);
  }

  lemma StatusSwapped(t: seq<octet>, n: seq<octet>)
    requires |t| >= 32 && n == SwapTlv(CSPTP_STATUS, t)
    ensures |n| == |t| && forall k :: 4 <= k < 13 || k == 15 || 20 <= k < 28 || 32 <= k < |t| ==> n[k] == t[k]
    ensures n[13] == t[14] && n[14] == t[13] && n[16] == t[17] && n[17] == t[16] && n[18] == t[19] && n[19] == t[18]
    ensures n[28] == t[29] && n[29] == t[28] && n[30] == t[31] && n[31] == t[30]
  {
  }

  lemma AltTimeOnWire(clk: Clock)
    requires clk.nextJump < 0x1_0000_0000_0000 && |clk.zone| <= 10
    ensures var n, l := PartWire(AltPart(clk)), |clk.zone|;
      && |n| == 20 + l + l % 2 && Wire16(n, 0) == 9 && Wire16(n, 2) == 16 + l + l % 2
      && n[4] == clk.key && Wire32(n, 5) == clk.currentOffset && Wire32(n, 9) == clk.jumpSeconds
      && Wire48(n, 13) == clk.nextJump
      && n[19] == l && n[20..20 + l] == clk.zone && (l % 2 == 1 ==> n[20 + l] == 0)
  {
    hide AltBody, Get16, Get32, Wire16, Wire32, Fits, PartHost, PartWire;
    var q := AltPart(clk);
    var b, n := q.body, PartWire(q);
    HeaderOnWire(q);
    AltFlips(q, b, n);
    Field32(b, n, 1);
    Field32(b, n, 5);
    Field16(b, n, 9);
    Field32(b, n, 11);
    assert n[20..20 + |clk.zone|] == b[16..];
  }

  /** Where the octets of an ALTERNATE_TIME_OFFSET_INDICATOR's body are on the wire. */
  lemma AltFlips(q: Part, b: seq<octet>, n: seq<octet>)
    requires q.id == ALT_TIME && Fits(q.id, q.body) && 16 <= |q.body| <= 26 && b == q.body && n == PartWire(q)
    ensures n[4] == b[0] && n[19] == b[15]
    ensures n[5] == b[4] && n[6] == b[3] && n[7] == b[2] && n[8] == b[1]
    ensures n[9] == b[8] && n[10] == b[7] && n[11] == b[6] && n[12] == b[5]
    ensures n[13] == b[10] && n[14] == b[9] && n[15] == b[14] && n[16] == b[13] && n[17] == b[12] && n[18] == b[11]
    ensures forall k :: 16 <= k < |b| ==> n[TLV_HDR + k] == b[k]
    ensures |b| % 2 == 1 ==> n[TLV_HDR + |b|] == 0
  {
    hide Fits, PartHost;
    var t := PartHost(q);
    forall k: nat | k < |b|
      ensures t[TLV_HDR + k] == b[k]
    {
      BodyOctet(q, k);
    }
    if |b| % 2 == 1 {
      PadOctet(q);
    }
    AltSwapped(t, n);
  }

  lemma PadOctet(q: Part)
    requires Fits(q.id, q.body) && |q.body| <= 44 && |q.body| % 2 == 1
    ensures PartHost(q)[TLV_HDR + |q.body|] == 0
  {
    hide Fits, MinTlvSize;
  }

  lemma AltSwapped(t: seq<octet>, n: seq<octet>)
    requires |t| >= 20 && n == SwapTlv(ALT_TIME, t)
    ensures n[4] == t[4] && forall k :: 19 <= k < |t| ==> n[k] == t[k]
    ensures n[5] == t[8] && n[6] == t[7] && n[7] == t[6] && n[8] == t[5]
    ensures n[9] == t[12] && n[10] == t[11] && n[11] == t[10] && n[12] == t[9]
    ensures n[13] == t[14] && n[14] == t[13] && n[15] == t[18] && n[16] == t[17] && n[17] == t[16] && n[18] == t[15]
  {
  }

  /** addRespTlv and addTlv */
  function AddResp(w: Work, clk: Clock, rx: Timespec): Option<Work>
    requires Ready(w) && clk.Valid()
  {
    match ToPtp(rx)
    case None => None
    case Some(t) => AddBody(w, TlvSize(CSPTP_RESPONSE), CSPTP_RESPONSE, RespBody(clk, t))
  }

  /** addStatusTlv */
  function AddStatus(w: Work, clk: Clock): Option<Work>
    requires Ready(w) && clk.Valid()
  {
    if AddressSize(clk.protocol) == 0 then None
    else AddBody(w, StatusTlvSize(clk.protocol), CSPTP_STATUS, StatusBody(clk))
  }

  /** addAltTimeTlv */
  function AddAlt(w: Work, clk: Clock): Option<Work>
    requires Ready(w)
  {
    if clk.nextJump > UINT48_MAX || |clk.zone| > MAX_TZ_LEN then None
    else AddBody(w, TlvSize(ALT_TIME), ALT_TIME, AltBody(clk))
  }

  /** A response under construction with these parts. */
  predicate Answering(w: Work, p: Params, parts: seq<Part>) {
    Building(w, p) && Holds(w, parts)
  }

  lemma AnsweringRoom(w: Work, p: Params, parts: seq<Part>)
    requires Answering(w, p, parts)
    ensures Ready(w) && Building(w, p) && Holds(w, parts) && w.msg.end + w.msg.left == |w.octets|
    ensures w.msg.Msg? && |w.msg.tlvs| == |parts|
  {
    hide Building;
    BuildingFacts(w, p);
  }

  lemma AddRespAnswers(w: Work, p: Params, clk: Clock, rx: Timespec)
    requires Building(w, p) && w.msg.tlvs == [] && clk.Valid()
    ensures AddResp(w, clk, rx).Some? <==> ToPtp(rx).Some? && w.msg.left >= 28
    ensures AddResp(w, clk, rx).Some? ==>
      var r := AddResp(w, clk, rx).value;
      && Answering(r, p, [RespPart(clk, ToPtp(rx).value)])
      && r.msg.end == MSG_SIZE + 28 && |r.octets| == |w.octets|
  {
    hide Building, Fits, AddBody, RespBody, ToPtp;
    BuildingFacts(w, p);
    BuildingEnd(w, p);
    if ToPtp(rx).Some? {
      var q := RespPart(clk, ToPtp(rx).value);
      NoParts(w);
      AddBodyHolds(w, p, 28, [], q);
      assert [] + [q] == [q];
    }
  }

  lemma NoParts(w: Work)
    requires w.msg.Msg? && w.msg.tlvs == []
    ensures Holds(w, []) && TlvsEnd(w.msg.tlvs) == MSG_SIZE
  {
  }

  lemma AddStatusAnswers(w: Work, p: Params, clk: Clock, parts: seq<Part>)
    requires clk.Valid() && Answering(w, p, parts)
    ensures AddStatus(w, clk).Some? <==> AddressSize(clk.protocol) != 0 && HasRoom(w, StatusTlvSize(clk.protocol))
    ensures AddStatus(w, clk).Some? ==>
      var r := AddStatus(w, clk).value;
      && Answering(r, p, parts + [StatusPart(clk)])
      && r.msg.end == w.msg.end + StatusTlvSize(clk.protocol) && |r.octets| == |w.octets|
  {
    hide Building, Holds, Fits, AddBody, StatusBody;
    BuildingFacts(w, p);
    if AddressSize(clk.protocol) != 0 {
      AddBodyHolds(w, p, StatusTlvSize(clk.protocol), parts, StatusPart(clk));
    }
  }

  lemma AddAltAnswers(w: Work, p: Params, clk: Clock, parts: seq<Part>)
    requires Answering(w, p, parts)
    ensures AddAlt(w, clk).Some? <==> clk.nextJump <= UINT48_MAX && |clk.zone| <= MAX_TZ_LEN && HasRoom(w, 30)
    ensures AddAlt(w, clk).Some? ==>
      var r := AddAlt(w, clk).value;
      && Answering(r, p, parts + [AltPart(clk)])
      && r.msg.end == w.msg.end + MakeEven(20 + |clk.zone|) && |r.octets| == |w.octets|
  {
    hide Building, Holds, Fits, AddBody, AltBody;
    BuildingFacts(w, p);
    if clk.nextJump <= UINT48_MAX && |clk.zone| <= MAX_TZ_LEN {
      AddBodyHolds(w, p, 30, parts, AltPart(clk));
    }
  }

  /** The TLVs of a Sync response: RESPONSE, and those the request asked for. */
  function RespTlvs(w: Work, p: Params, clk: Clock, rx: Timespec, flags: octet): Option<Work>
    requires Building(w, p) && w.msg.tlvs == [] && clk.Valid()
  {
    var a := AddResp(w, clk, rx);
    if a.None? then None
    else
      AddRespAnswers(w, p, clk, rx);
      var parts := [RespPart(clk, ToPtp(rx).value)];
      var b := if flags % 2 == 0 then a else AddStatus(a.value, clk);
      if b.None? then None
      else
        AddStatusAnswers(a.value, p, clk, parts);
        if flags / 2 % 2 == 0 then b else AddAlt(b.value, clk)
  }

  /** How many octets the TLVs of a response take. */
  function RespSize(clk: Clock, flags: octet): nat {
    28 + (if flags % 2 == 0 then 0 else StatusTlvSize(clk.protocol))
    + (if flags / 2 % 2 == 0 then 0 else MakeEven(20 + |clk.zone|))
  }

  /** The TLVs of a response are its parts, in order; and they are added whenever they can be told and there is room. */
  lemma RespTlvsBuild(w: Work, p: Params, clk: Clock, rx: Timespec, flags: octet)
    requires Building(w, p) && w.msg.tlvs == [] && clk.Valid()
    ensures RespTlvs(w, p, clk, rx, flags).Some? ==>
      && ToPtp(rx).Some? && Tellable(clk, flags)
      && var r := RespTlvs(w, p, clk, rx, flags).value;
        && Answering(r, p, RespParts(clk, ToPtp(rx).value, flags))
        && r.msg.end == MSG_SIZE + RespSize(clk, flags) && |r.octets| == |w.octets|
    ensures ToPtp(rx).Some? && Tellable(clk, flags) && |w.octets| >= MSG_SIZE + 28 + 48 + 30 ==>
      RespTlvs(w, p, clk, rx, flags).Some?
  {
    hide Answering, AddResp, AddStatus, AddAlt, ToPtp, Building, RespPart, StatusPart, AltPart, RespParts, Fits, Holds;
    BuildingFacts(w, p);
    BuildingEnd(w, p);
    NoParts(w);
    AddRespAnswers(w, p, clk, rx);
    var a := AddResp(w, clk, rx);
    if a.Some? {
      var parts := [RespPart(clk, ToPtp(rx).value)];
      AnsweringRoom(a.value, p, parts);
      AddStatusAnswers(a.value, p, clk, parts);
      var b := if flags % 2 == 0 then a else AddStatus(a.value, clk);
      if b.Some? {
        var more := if flags % 2 == 0 then parts else parts + [StatusPart(clk)];
        AnsweringRoom(b.value, p, more);
        AddAltAnswers(b.value, p, clk, more);
        if RespTlvs(w, p, clk, rx, flags).Some? {
          PartsInOrder(clk, ToPtp(rx).value, flags);
        }
      }
    }
  }

  lemma PartsInOrder(clk: Clock, t: PtpTime, flags: octet)
    requires clk.Valid() && Tellable(clk, flags)
    ensures var parts := [RespPart(clk, t)];
      var more := if flags % 2 == 0 then parts else parts + [StatusPart(clk)];
      RespParts(clk, t, flags) == if flags / 2 % 2 == 0 then more else more + [AltPart(clk)]
  {
    hide RespPart, StatusPart, AltPart;
  }

  /** sendRespSync up to the send. */
  function BuildResponse(w: Work, p: Params, clk: Clock, rx: Timespec, flags: octet, size: nat): Option<Work>
    requires |w.octets| <= MAX_MESSAGE && clk.Valid()
  {
    var i := Init(w, p);
    if !i.0 then None
    else
      InitBuilds(w, p);
      var t := RespTlvs(i.1, p, clk, rx, flags);
      if t.None? then None
      else
        RespTlvsBuild(i.1, p, clk, rx, flags);
        AnsweringRoom(t.value, p, RespParts(clk, ToPtp(rx).value, flags));
        var d := BuildDone(t.value, size);
        if d.0 then Some(d.1) else None
  }

  // What a receiver reads.

  predicate Inside(s: seq<octet>, tlvs: seq<Tlv>) {
    forall k :: 0 <= k < |tlvs| ==> tlvs[k].at + tlvs[k].len <= |s| && MinTlvSize(tlvs[k].id) <= tlvs[k].len
  }

  /** rcvReqSync: the flags of the last REQUEST, if there is one. */
  function RequestFlagsIn(s: seq<octet>, tlvs: seq<Tlv>): Option<octet>
    requires Inside(s, tlvs)
  {
    if tlvs == [] then None
    else
      var n := |tlvs| - 1;
      if tlvs[n].id == CSPTP_REQUEST then Some(s[tlvs[n].at + 4]) else RequestFlagsIn(s, tlvs[..n])
  }

  /** client_main_rcvRespSync: the ingress times of the RESPONSEs, in order. */
  function IngressIn(s: seq<octet>, tlvs: seq<Tlv>): seq<PtpTime>
    requires Inside(s, tlvs)
  {
    if tlvs == [] then []
    else
      var n := |tlvs| - 1;
      IngressIn(s, tlvs[..n]) + if tlvs[n].id == CSPTP_RESPONSE then [PtpAt(s, tlvs[n].at + 10)] else []
  }

  /** The last REQUEST's fifth octet, or nothing if there is no REQUEST. */
  lemma {:induction false} LastRequest(s: seq<octet>, tlvs: seq<Tlv>, k: nat)
    requires Inside(s, tlvs) && k <= |tlvs|
    requires forall j :: k <= j < |tlvs| ==> tlvs[j].id != 0xff00
    requires k == 0 || tlvs[k - 1].id == 0xff00
    ensures k == 0 ==> RequestFlagsIn(s, tlvs) == None
    ensures k > 0 ==> tlvs[k - 1].at + 5 <= |s| && RequestFlagsIn(s, tlvs) == Some(s[tlvs[k - 1].at + 4])
  {
    if k < |tlvs| {
      LastRequest(s, tlvs[..|tlvs| - 1], k);
    }
  }

  lemma IngressLast(s: seq<octet>, a: seq<Tlv>, t: Tlv)
    requires Inside(s, a) && Inside(s, [t])
    ensures Inside(s, a + [t]) && IngressIn(s, a + [t]) == IngressIn(s, a) + IngressIn(s, [t])
  {
    hide PtpAt;
    assert (a + [t])[..|a|] == a && [t][..0] == [];
  }

  /** The ingress times, TLV by TLV: none without one, that of a RESPONSE, and one after the other. */
  lemma IngressInOrder(s: seq<octet>, a: seq<Tlv>, b: seq<Tlv>)
    requires Inside(s, a) && Inside(s, b)
    ensures a == [] ==> IngressIn(s, a) == []
    ensures |a| == 1 && a[0].id != 0xff01 ==> IngressIn(s, a) == []
    ensures |a| == 1 && a[0].id == 0xff01 ==> a[0].at + 20 <= |s| && IngressIn(s, a) == [PtpAt(s, a[0].at + 10)]
    ensures Inside(s, a + b) && IngressIn(s, a + b) == IngressIn(s, a) + IngressIn(s, b)
  {
    hide PtpAt;
    IngressJoins(s, a, b);
  }

  lemma {:induction false} IngressJoins(s: seq<octet>, a: seq<Tlv>, b: seq<Tlv>)
    requires Inside(s, a) && Inside(s, b)
    ensures Inside(s, a + b) && IngressIn(s, a + b) == IngressIn(s, a) + IngressIn(s, b)
  {
    hide PtpAt, IngressIn;
    if b == [] {
      assert a + b == a;
      NoIngress(s);
    } else {
      var n := |b| - 1;
      assert a + b == a + b[..n] + [b[n]];
      assert b == b[..n] + [b[n]];
      IngressJoins(s, a, b[..n]);
      IngressLast(s, a + b[..n], b[n]);
      IngressLast(s, b[..n], b[n]);
    }
  }

  lemma NoIngress(s: seq<octet>)
    ensures IngressIn(s, []) == []
  {
  }

  /** What a message means to the client and the service; all that they look at. */
  datatype Reading = Unread | Read(params: Params, flags: Option<octet>, ingress: seq<PtpTime>)

  function ReadingOf(r: ParseResult): Reading
    requires r.Parsed? ==> r.msg.Msg? && Inside(r.octets, r.msg.tlvs)
  {
    match r
    case Rejected(_) => Unread
    case Parsed(o, p, msg) => Read(p, RequestFlagsIn(o, msg.tlvs), IngressIn(o, msg.tlvs))
  }

  /** A received message, in a buffer that holds it and nothing else. */
  function Reads(m: seq<octet>): Reading
    requires ClaimsHeader(m, |m|)
  {
    ParsedInside(m, |m|);
    ReadingOf(Parse(m, |m|))
  }

  lemma ParsedInside(s: seq<octet>, used: nat)
    requires ClaimsHeader(s, used)
    ensures Parse(s, used).Parsed? ==> Inside(Parse(s, used).octets, Parse(s, used).msg.tlvs)
  {
    hide Parse, Tiled, TlvsEnd, WireParams, DecodeTlv, SwapHeader, SwapTlv, HostTlv, MinTlvSize;
    if Parse(s, used).Parsed? {
      ParseFrames(s, used);
      var r := Parse(s, used);
      forall k | 0 <= k < |r.msg.tlvs|
        ensures r.msg.tlvs[k].at + r.msg.tlvs[k].len <= |s| && MinTlvSize(r.msg.tlvs[k].id) <= r.msg.tlvs[k].len
      {
        assert ParsedTlv(s, r.octets, r.msg.tlvs[k]);
      }
    }
  }

  /** What parse has checked of the parameters it returns. */
  lemma ParsedHeader(s: seq<octet>, used: nat)
    requires ClaimsHeader(s, used) && Parse(s, used).Parsed?
    ensures var p := Parse(s, used).params; p.flagField2 < 0x40 && (p.kind == SYNC || p.kind == FOLLOW_UP)
  {
    hide DecodeTlv, HeaderFlip, ScanTlvs, WireParams, Tiled, TlvsEnd, ParsedTlv;
    ParseFrames(s, used);
    var o, h := Parse(s, used).octets, SwapHeader(s);
    assert HeaderAccepted(h);
    assert o[..MSG_SIZE][7] == h[..MSG_SIZE][7] && o[..MSG_SIZE][0] == h[..MSG_SIZE][0];
    assert Parse(s, used).params == ParamsAt(o);
  }

  lemma {:induction false} ReadLocal(s: seq<octet>, tail: seq<octet>, tlvs: seq<Tlv>)
    requires Inside(s, tlvs)
    ensures Inside(s + tail, tlvs)
    ensures RequestFlagsIn(s + tail, tlvs) == RequestFlagsIn(s, tlvs) && IngressIn(s + tail, tlvs) == IngressIn(s, tlvs)
  {
    if tlvs != [] {
      ReadLocal(s, tail, tlvs[..|tlvs| - 1]);
    }
  }

  /** The same message at the front of any buffer reads the same. */
  lemma ReadsAnywhere(m: seq<octet>, tail: seq<octet>)
    requires ClaimsHeader(m, |m|)
    ensures ClaimsHeader(m + tail, |m|)
    ensures var r := Parse(m + tail, |m|);
      (r.Parsed? ==> Inside(r.octets, r.msg.tlvs)) && ReadingOf(r) == Reads(m)
  {
    hide Parse, RequestFlagsIn, IngressIn, Inside;
    ParseLocal(m, tail);
    ParsedInside(m, |m|);
    ParsedInside(m + tail, |m|);
    if Parse(m, |m|).Parsed? {
      var r := Parse(m, |m|);
      ReadLocal(r.octets, tail, r.msg.tlvs);
    }
  }

  // Every built message is read as it was meant.

  /** A built message, read by whoever receives it. */
  lemma SentIsRead(w: Work, p: Params, size: nat)
    requires Building(w, p) && BuildDone(w, size).0 && p.flagField2 < 0x40
    ensures var b := BuildDone(w, size).1;
      && b.used == FullSize(w, size) <= |b.octets| && SizeAccepted(w, size)
      && ClaimsHeader(Sent(b), b.used)
      && Inside(ReadBack(w, size), ReadBackMsg(w, size).tlvs)
      && Reads(Sent(b)) == ReadingOf(Parsed(ReadBack(w, size), p, ReadBackMsg(w, size)))
  {
    hide Parse, ReadBack, ReadBackMsg, BuildDone, WireParams, Building, RequestFlagsIn, IngressIn, Inside, Get16;
    BuildingFacts(w, p);
    BuildThenParse(w, p, size);
    var b := BuildDone(w, size).1;
    BuiltSize(w, p, size);
    var m := Sent(b);
    assert b.octets == m + b.octets[b.used..];
    assert Wire16(m, 2) == Wire16(b.octets, 2);
    ReadsAnywhere(m, b.octets[b.used..]);
  }

  /** A message without TLVs of its own is read as its parameters. */
  lemma PlainIsRead(w: Work, p: Params, size: nat)
    requires |w.octets| <= MAX_MESSAGE && BuildPlain(w, p, size).0 && p.flagField2 < 0x40
    ensures var b := BuildPlain(w, p, size).1;
      && b.used == (if size == 0 then MSG_SIZE else size) <= |b.octets| && ClaimsHeader(Sent(b), b.used)
      && Reads(Sent(b)) == Read(p, None, [])
  {
    hide BuildDone, Init, Building, ReadBack, ReadBackMsg, SizeAccepted, Inside, RequestFlagsIn, IngressIn;
    InitBuilds(w, p);
    var i := Init(w, p).1;
    InitIs(w, p);
    SentIsRead(i, p, size);
    PlainReadBack(i, size);
  }

  lemma PlainReadBack(w: Work, size: nat)
    requires Ready(w) && w.msg.Msg? && w.msg.len == w.msg.end && SizeAccepted(w, size) && w.msg.tlvs == []
    requires Inside(ReadBack(w, size), ReadBackMsg(w, size).tlvs)
    ensures var d, tlvs := ReadBack(w, size), ReadBackMsg(w, size).tlvs;
      RequestFlagsIn(d, tlvs) == None && IngressIn(d, tlvs) == []
  {
    hide ReadBack, SizeAccepted, Inside;
    NoRequests(ReadBack(w, size), ReadBackMsg(w, size).tlvs);
  }

  lemma InitIs(w: Work, p: Params)
    requires |w.octets| <= MAX_MESSAGE && Init(w, p).0
    ensures var i := Init(w, p).1;
      i.msg.Msg? && i.msg.len == i.msg.end == MSG_SIZE && i.msg.tlvs == [] && Ready(i) && |i.octets| == |w.octets|
  {
  }

  /** Without a REQUEST there are no flags, without a RESPONSE no ingress times. */
  lemma {:induction false} NoRequests(s: seq<octet>, tlvs: seq<Tlv>)
    requires Inside(s, tlvs)
    ensures (forall k :: 0 <= k < |tlvs| ==> tlvs[k].id != CSPTP_REQUEST) ==> RequestFlagsIn(s, tlvs) == None
    ensures (forall k :: 0 <= k < |tlvs| ==> tlvs[k].id != CSPTP_RESPONSE) ==> IngressIn(s, tlvs) == []
  {
    if tlvs != [] {
      NoRequests(s, tlvs[..|tlvs| - 1]);
    }
  }

  /** Only the first TLV is a RESPONSE. */
  lemma {:induction false} OneResponse(s: seq<octet>, tlvs: seq<Tlv>)
    requires Inside(s, tlvs) && |tlvs| > 0 && tlvs[0].id == CSPTP_RESPONSE
    requires forall k :: 0 < k < |tlvs| ==> tlvs[k].id != CSPTP_RESPONSE
    ensures IngressIn(s, tlvs) == [PtpAt(s, tlvs[0].at + 10)]
  {
    if |tlvs| > 1 {
      OneResponse(s, tlvs[..|tlvs| - 1]);
    } else {
      assert tlvs[..0] == [];
    }
  }

  /** A request is read as its parameters and its two request flags. */
  lemma RequestIsRead(w: Work, p: Params, flags: octet, size: nat)
    requires |w.octets| <= MAX_MESSAGE && BuildRequest(w, p, flags, size).0 && p.flagField2 < 0x40
    ensures var b := BuildRequest(w, p, flags, size).1;
      && b.used == (if size == 0 then MSG_SIZE + 8 else size) <= |b.octets| && ClaimsHeader(Sent(b), b.used)
      && Reads(Sent(b)) == Read(p, Some(flags % 4), [])
  {
    hide BuildDone, Init, Building, ReadBack, ReadBackMsg, SizeAccepted, Inside, AddReqTlv, RequestFlagsIn, IngressIn;
    InitBuilds(w, p);
    InitIs(w, p);
    var i := Init(w, p).1;
    AddReqTlvBuilds(i, p, flags);
    AddReqIs(i, flags);
    var a := AddReqTlv(i, flags).1;
    SentIsRead(a, p, size);
    BuildingFacts(a, p);
    RequestReadBack(a, size);
  }

  lemma RequestReadBack(a: Work, size: nat)
    requires Ready(a) && a.msg.Msg? && a.msg.len == a.msg.end && SizeAccepted(a, size)
    requires a.msg.tlvs == [Tlv(MSG_SIZE, 8, CSPTP_REQUEST)] && a.msg.end == MSG_SIZE + 8
    requires Inside(ReadBack(a, size), ReadBackMsg(a, size).tlvs)
    ensures var d, tlvs := ReadBack(a, size), ReadBackMsg(a, size).tlvs;
      RequestFlagsIn(d, tlvs) == Some(a.octets[MSG_SIZE + 4]) && IngressIn(d, tlvs) == []
  {
    hide ReadBack, SizeAccepted, Inside;
    var d := ReadBack(a, size);
    ReadBackTlv(a, size, 0);
    OneRequest(d, ReadBackMsg(a, size).tlvs);
    NoRequests(d, ReadBackMsg(a, size).tlvs);
    assert d[MSG_SIZE + 4] == TlvOctets(d, a.msg.tlvs[0])[4] == TlvOctets(a.octets, a.msg.tlvs[0])[4];
  }

  lemma AddReqIs(w: Work, flags: octet)
    requires Ready(w) && AddReqTlv(w, flags).0 && w.msg.Msg? && w.msg.tlvs == []
    ensures var a := AddReqTlv(w, flags).1;
      && a.msg.Msg? && a.msg.tlvs == [Tlv(w.msg.end, 8, CSPTP_REQUEST)]
      && a.msg.len == w.msg.len + 8 && a.msg.end == w.msg.end + 8 && |a.octets| == |w.octets|
      && a.octets[w.msg.end + 4] == flags % 4
  {
  }

  lemma {:induction false} OneRequest(s: seq<octet>, tlvs: seq<Tlv>)
    requires Inside(s, tlvs) && |tlvs| > 0 && tlvs[0].id == CSPTP_REQUEST
    requires forall k :: 0 < k < |tlvs| ==> tlvs[k].id != CSPTP_REQUEST
    ensures RequestFlagsIn(s, tlvs) == Some(s[tlvs[0].at + 4])
  {
    if |tlvs| > 1 {
      OneRequest(s, tlvs[..|tlvs| - 1]);
    }
  }

  /** A response is read as its parameters and the time the request came in. */
  lemma ResponseIsRead(w: Work, p: Params, clk: Clock, rx: Timespec, flags: octet, size: nat)
    requires |w.octets| <= MAX_MESSAGE && clk.Valid() && p.flagField2 < 0x40
    requires BuildResponse(w, p, clk, rx, flags, size).Some?
    ensures ToPtp(rx).Some?
    ensures var b := BuildResponse(w, p, clk, rx, flags, size).value;
      && b.used == (if size == 0 then MSG_SIZE + RespSize(clk, flags) else size) <= |b.octets|
      && ClaimsHeader(Sent(b), b.used)
      && Reads(Sent(b)).Read? && Reads(Sent(b)).params == p && Reads(Sent(b)).ingress == [ToPtp(rx).value]
  {
    hide BuildDone, Init, Building, ReadBack, SizeAccepted, Inside, RespTlvs, RespBody, AddressesMatch, ToPtp, RespSize;
    InitBuilds(w, p);
    InitIs(w, p);
    var i := Init(w, p).1;
    RespTlvsBuild(i, p, clk, rx, flags);
    var a := RespTlvs(i, p, clk, rx, flags).value;
    BuildingFacts(a, p);
    SentIsRead(a, p, size);
    IngressRead(a, p, clk, ToPtp(rx).value, flags, size);
  }

  lemma IngressRead(a: Work, p: Params, clk: Clock, t: PtpTime, flags: octet, size: nat)
    requires clk.Valid() && Tellable(clk, flags) && Building(a, p) && Holds(a, RespParts(clk, t, flags))
    requires Ready(a) && a.msg.len == a.msg.end && SizeAccepted(a, size)
    requires Inside(ReadBack(a, size), ReadBackMsg(a, size).tlvs)
    ensures IngressIn(ReadBack(a, size), ReadBackMsg(a, size).tlvs) == [t]
  {
    hide ReadBack, ReadBackMsg, Inside, Building, RespParts, RespBody, Fits, PartHost, ZeroPad, NameFits, Holds,
      Tiled, Layout, IngressIn;
    var parts := RespParts(clk, t, flags);
    HoldsIs(a, parts);
    BuiltTlvs(a, size);
    var d, tlvs := ReadBack(a, size), ReadBackMsg(a, size).tlvs;
    forall k | 0 <= k < |parts|
      ensures tlvs[k].id == parts[k].id && (k > 0 ==> parts[k].id != CSPTP_RESPONSE) && parts[0].id == CSPTP_RESPONSE
    {
      LayoutAt(parts, k);
      PartIds(clk, t, flags, k);
    }
    OneResponse(d, tlvs);
    HoldsTlv(a, p, parts, 0);
    ReadBackTlv(a, size, 0);
    HostIngress(clk, t, d, tlvs[0]);
  }

  lemma PartIds(clk: Clock, t: PtpTime, flags: octet, k: nat)
    requires clk.Valid() && Tellable(clk, flags) && k < |RespParts(clk, t, flags)|
    ensures RespParts(clk, t, flags)[k].id == CSPTP_RESPONSE <==> k == 0
  {
    hide Fits;
  }

  lemma HostIngress(clk: Clock, t: PtpTime, d: seq<octet>, tlv: Tlv)
    requires clk.Valid() && tlv.at + tlv.len <= |d| && TlvOctets(d, tlv) == PartHost(RespPart(clk, t))
    ensures tlv.at + 20 <= |d| && PtpAt(d, tlv.at + 10) == t
  {
    hide RespBody, PtpAt, PtpOctets, PartHost, Fits;
    var q := RespPart(clk, t);
    forall k: nat | k < 10
      ensures d[tlv.at + 10 + k] == PtpOctets(t)[k]
    {
      BodyOctet(q, 6 + k);
      assert q.body[6..16][k] == q.body[6 + k];
      assert TlvOctets(d, tlv)[10 + k] == d[tlv.at + 10 + k];
    }
    PtpHere(d, tlv.at + 10, PtpOctets(t));
  }

  lemma BuiltLonger(w: Work, p: Params, size: nat)
    requires Building(w, p) && BuildDone(w, size).0
    ensures SizeAccepted(w, size) && MSG_SIZE <= FullSize(w, size)
  {
    hide AddressesMatch;
    BuildDoneSucceeds(w, p, size);
    BuiltSize(w, p, size);
  }

  predicate IsResponse(b: Work, p: Params, clk: Clock, t: PtpTime, flags: octet) {
    && clk.Valid() && Tellable(clk, flags)
    && MSG_SIZE <= b.used <= |b.octets| && WireParams(b.octets) == p
    && Carries(Sent(b), RespParts(clk, t, flags)) && IsFound(Sent(b), RespParts(clk, t, flags))
  }

  /**
   A response, whole: on the wire it is its parts, in order and field by
   field as ResponseOnWire, StatusOnWire and AltTimeOnWire say, and a PAD up
   to its size; and whoever parses it finds exactly these parts again.
   */
  lemma ResponseIsParts(w: Work, p: Params, clk: Clock, rx: Timespec, flags: octet, size: nat)
    requires |w.octets| <= MAX_MESSAGE && clk.Valid() && p.flagField2 < 0x40
    requires BuildResponse(w, p, clk, rx, flags, size).Some?
    ensures ToPtp(rx).Some?
    ensures IsResponse(BuildResponse(w, p, clk, rx, flags, size).value, p, clk, ToPtp(rx).value, flags)
  {
    hide BuildDone, Init, Building, RespTlvs, RespParts, ToPtp, Tellable, Carries, IsFound, WireParams, Holds, Answering;
    InitBuilds(w, p);
    InitIs(w, p);
    var i := Init(w, p).1;
    RespTlvsBuild(i, p, clk, rx, flags);
    var a, parts := RespTlvs(i, p, clk, rx, flags).value, RespParts(clk, ToPtp(rx).value, flags);
    AnsweringRoom(a, p, parts);
    BuildingFacts(a, p);
    BuiltLonger(a, p, size);
    PartsSent(a, p, parts, size);
    PartsFound(a, p, parts, size);
  }

  // Size agreement.

  const SERVICE_BUFFER: nat := 256

  /** The size a client works with: its buffer's, and the one it pads its messages to. */
  function ClientSize(status: bool, altTime: bool, family: u16): u64 {
    SmoothSize(MsgSize(status, altTime, family))
  }

  lemma ClientSizes(status: bool, altTime: bool, family: u16)
    requires family == UDP_IPV4 || family == UDP_IPV6
    ensures ClientSize(status, altTime, family) % 2 == 0 && MSG_SIZE + 36 <= ClientSize(status, altTime, family)
    ensures forall clk: Clock :: Tellable(clk, RequestFlags(status, altTime)) ==>
      MSG_SIZE + RespSize(clk, RequestFlags(status, altTime)) + 8 <= ClientSize(status, altTime, family) <= 160
  {
    hide SmoothSize;
    var m := SmoothSizeIsLeast(MsgSize(status, altTime, family));
  }

  /** The size of each option set after smoothing. */
  lemma ClientSizesAre(status: bool, altTime: bool, family: u16)
    requires family == 1 || family == 2
    ensures !status && !altTime ==> ClientSize(status, altTime, family) == 96
    ensures !status && altTime ==> ClientSize(status, altTime, family) == 112
    ensures status && !altTime ==> ClientSize(status, altTime, family) == if family == 1 then 128 else 144
    ensures status && altTime ==> ClientSize(status, altTime, family) == 160
  {
    hide SmoothSize;
    var m := SmoothSizeIsLeast(MsgSize(status, altTime, family));
  }

  lemma DoneWithPad(w: Work, p: Params, size: nat)
    requires Building(w, p) && AddressesMatch(w.octets, w.msg.tlvs)
    requires size % 2 == 0 && w.msg.end + 8 <= size <= |w.octets|
    ensures BuildDone(w, size).0
  {
    BuildDoneSucceeds(w, p, size);
  }

  /**
   For every option set and family of the client, and whatever the family of
   the service's parent address: the client's two messages build in its own
   buffer, and the service's two answers build in the service's buffer,
   padded to the client's size.
   */
  lemma SizesAgree(status: bool, altTime: bool, family: u16, c: Work, s: Work, p: Params, clk: Clock, rx: Timespec)
    requires family == UDP_IPV4 || family == UDP_IPV6
    requires |c.octets| == ClientSize(status, altTime, family) && |s.octets| == 256
    requires ControlField(p.kind).Some? && clk.Valid() && ToPtp(rx).Some?
    requires Tellable(clk, RequestFlags(status, altTime))
    ensures var size, flags := ClientSize(status, altTime, family), RequestFlags(status, altTime);
      && |c.octets| <= MAX_MESSAGE
      && BuildRequest(c, p, flags, size).0 && BuildPlain(c, p, size).0
      && BuildResponse(s, p, clk, rx, flags, size).Some? && BuildPlain(s, p, size).0
  {
    hide BuildDone, Building, Init, AddReqTlv, RespTlvs, AddressesMatch, ToPtp, Tellable, RespSize, SmoothSize, ClientSize,
      RespBody;
    ClientSizes(status, altTime, family);
    var size, flags: octet := ClientSize(status, altTime, family), RequestFlags(status, altTime);
    PlainBuilds(c, p, size);
    RequestBuilds(c, p, flags, size);
    PlainBuilds(s, p, size);
    ResponseBuilds(s, p, clk, rx, flags, size);
  }

  lemma PlainBuilds(w: Work, p: Params, size: nat)
    requires MSG_SIZE + 8 <= size <= |w.octets| <= MAX_MESSAGE && size % 2 == 0 && ControlField(p.kind).Some?
    ensures BuildPlain(w, p, size).0
  {
    hide BuildDone, Building;
    InitBuilds(w, p);
    InitIs(w, p);
    DoneWithPad(Init(w, p).1, p, size);
  }

  lemma RequestBuilds(w: Work, p: Params, flags: octet, size: nat)
    requires MSG_SIZE + 16 <= size <= |w.octets| <= MAX_MESSAGE && size % 2 == 0 && ControlField(p.kind).Some?
    ensures BuildRequest(w, p, flags, size).0
  {
    hide BuildDone, Building, Init, AddReqTlv;
    InitBuilds(w, p);
    InitIs(w, p);
    var i := Init(w, p).1;
    BuildingFacts(i, p);
    AddReqTlvBuilds(i, p, flags);
    AddReqIs(i, flags);
    DoneWithPad(AddReqTlv(i, flags).1, p, size);
  }

  lemma ResponseBuilds(w: Work, p: Params, clk: Clock, rx: Timespec, flags: octet, size: nat)
    requires MSG_SIZE + 28 + 48 + 30 <= |w.octets| <= MAX_MESSAGE && ControlField(p.kind).Some?
    requires clk.Valid() && ToPtp(rx).Some? && Tellable(clk, flags)
    requires size % 2 == 0 && MSG_SIZE + RespSize(clk, flags) + 8 <= size <= |w.octets|
    ensures BuildResponse(w, p, clk, rx, flags, size).Some?
  {
    hide BuildDone, Building, Init, RespTlvs, AddressesMatch, ToPtp, Tellable, RespSize, RespParts, Holds, Ready;
    InitBuilds(w, p);
    InitIs(w, p);
    var i := Init(w, p).1;
    RespTlvsBuild(i, p, clk, rx, flags);
    var a, parts := RespTlvs(i, p, clk, rx, flags).value, RespParts(clk, ToPtp(rx).value, flags);
    AnsweringRoom(a, p, parts);
    HoldsAddresses(a, p, parts);
    DoneWithPad(a, p, size);
  }
}
