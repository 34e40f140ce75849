/** What parse does with any received octets, and the round trip over whole runs of the builder. */
module Parsing {
  import opened Octets
  import opened Wire
  import opened Message
  import opened Builder
  import opened RoundTrip

  /** o holds, in host order and obeying its size law, the TLV t that s holds in network order. */
  predicate ParsedTlv(s: seq<octet>, o: seq<octet>, t: Tlv) {
    && t.at + t.len <= |s| == |o|
    && t.len >= TLV_HDR && t.len >= MinTlvSize(t.id)
    && TlvOctets(o, t) == SwapTlv(t.id, TlvOctets(s, t))
    && HostTlv(t.id, TlvOctets(o, t))
  }

  /** From scan state z to r: the new TLVs tile [z.at, r.at), and nothing else but the next TLV header changed. */
  predicate Scanned(z: TlvScan, r: TlvScan) {
    && |r.octets| == |z.octets| && r.at + r.size == z.at + z.size <= |z.octets|
    && Tiled(r.tlvs) && TlvsEnd(r.tlvs) == r.at && z.at <= r.at
    && z.tlvs <= r.tlvs && |r.tlvs| <= MAX_TLVS
    && (forall i :: 0 <= i < z.at ==> r.octets[i] == z.octets[i])
    && (forall i :: r.at + TLV_HDR <= i < |z.octets| ==> r.octets[i] == z.octets[i])
    && (forall k :: |z.tlvs| <= k < |r.tlvs| ==>
          z.at <= r.tlvs[k].at && ParsedTlv(z.octets, r.octets, r.tlvs[k]))
    && NextTlv(z, r)
  }

  /** The scan stopped for lack of octets or room, or at a TLV that is refused; that one's header stays swapped. */
  predicate NextTlv(z: TlvScan, r: TlvScan)
    requires |r.octets| == |z.octets| && r.at + r.size <= |z.octets|
  {
    var before, after := z.octets[r.at..r.at + r.size], r.octets[r.at..r.at + r.size];
    if r.size <= TLV_HDR || |r.tlvs| >= MAX_TLVS then after == before
    else DecodeTlv(before).Refused? && after == SwapTlvHeader(before)
  }

  lemma RefusedKeeps(s: seq<octet>)
    requires |s| >= TLV_HDR && DecodeTlv(s).Refused?
    ensures DecodeTlv(s).octets == SwapTlvHeader(s)
  {
  }

  lemma AcceptedSwaps(s: seq<octet>)
    requires |s| >= TLV_HDR && DecodeTlv(s).Accepted?
    ensures var r := DecodeTlv(s);
      && r.octets[..r.len] == SwapTlv(r.id, s[..r.len])
      && r.octets[r.len..] == s[r.len..]
      && HostTlv(r.id, r.octets[..r.len])
      && TLV_HDR <= r.len && MinTlvSize(r.id) <= r.len
  {
    var r := DecodeTlv(s);
    DecodedIsHost(s);
    assert s == s[..r.len] + s[r.len..];
    SwapTlvFront(r.id, s[..r.len], s[r.len..]);
  }

  lemma {:induction false} ScanFrames(z: TlvScan)
    requires z.at + z.size <= |z.octets| && |z.tlvs| <= MAX_TLVS
    requires Tiled(z.tlvs) && TlvsEnd(z.tlvs) == z.at
    ensures Scanned(z, ScanTlvs(z))
    decreases MAX_TLVS - |z.tlvs|
  {
    hide DecodeTlv, SwapTlv, HostTlv, MinTlvSize, Tiled, SwapTlvHeader, Scanned, TlvsEnd;
    if z.size > TLV_HDR && |z.tlvs| < MAX_TLVS {
      var s := z.octets[z.at..z.at + z.size];
      var c := DecodeTlv(s);
      if c.Accepted? {
        var t := Tlv(z.at, c.len, c.id);
        var z' := TlvScan(Splice(z.octets, z.at, c.octets), z.at + c.len, z.size - c.len, z.tlvs + [t]);
        AcceptedSwaps(s);
        TiledAppend(z.tlvs, t);
        ScanFrames(z');
        ScannedOnce(z, z', c, ScanTlvs(z'));
      } else {
        ScannedRefused(z);
      }
    } else {
      ScannedNone(z);
    }
  }

  lemma ScannedNone(z: TlvScan)
    requires z.at + z.size <= |z.octets| && |z.tlvs| <= MAX_TLVS
    requires Tiled(z.tlvs) && TlvsEnd(z.tlvs) == z.at
    requires z.size <= TLV_HDR || |z.tlvs| >= MAX_TLVS
    ensures Scanned(z, z)
  {
    hide DecodeTlv, SwapTlv, HostTlv, MinTlvSize, Tiled, SwapTlvHeader;
  }

  lemma ScannedRefused(z: TlvScan)
    requires z.at + z.size <= |z.octets| && |z.tlvs| < MAX_TLVS && z.size > TLV_HDR
    requires Tiled(z.tlvs) && TlvsEnd(z.tlvs) == z.at
    requires DecodeTlv(z.octets[z.at..z.at + z.size]).Refused?
    ensures Scanned(z, z.(octets := Splice(z.octets, z.at, DecodeTlv(z.octets[z.at..z.at + z.size]).octets)))
  {
    hide DecodeTlv, SwapTlv, HostTlv, MinTlvSize, Tiled, SwapTlvHeader;
    var s := z.octets[z.at..z.at + z.size];
    var d := DecodeTlv(s).octets;
    RefusedKeeps(s);
    SwapHeaderTail(s);
    assert Splice(z.octets, z.at, d)[z.at..z.at + z.size] == d;
  }

  lemma SwapHeaderTail(s: seq<octet>)
    requires |s| >= TLV_HDR
    ensures forall i :: TLV_HDR <= i < |s| ==> SwapTlvHeader(s)[i] == s[i]
  {
  }

  /** One accepted TLV, then the rest of the scan. */
  lemma ScannedOnce(z: TlvScan, z': TlvScan, c: Decoded, r: TlvScan)
    requires z.at + z.size <= |z.octets| && |z.tlvs| < MAX_TLVS && z.size > TLV_HDR && c.Accepted?
    requires |c.octets| == z.size && TLV_HDR <= c.len <= z.size && MinTlvSize(c.id) <= c.len
    requires var s := z.octets[z.at..z.at + z.size];
      && c.octets[..c.len] == SwapTlv(c.id, s[..c.len])
      && c.octets[c.len..] == s[c.len..]
      && HostTlv(c.id, c.octets[..c.len])
    requires z' == TlvScan(Splice(z.octets, z.at, c.octets), z.at + c.len, z.size - c.len, z.tlvs + [Tlv(z.at, c.len, c.id)])
    requires Scanned(z', r)
    ensures Scanned(z, r)
  {
    hide SwapTlv, HostTlv, MinTlvSize, Tiled, SwapTlvHeader, DecodeTlv, ParsedTlv, NextTlv, TlvsEnd;
    var t := Tlv(z.at, c.len, c.id);
    assert z'.tlvs[|z.tlvs|] == t && r.tlvs[|z.tlvs|] == t;
    OnceAgrees(z, z', c, r);
    forall k | |z.tlvs| <= k < |r.tlvs|
      ensures z.at <= r.tlvs[k].at && ParsedTlv(z.octets, r.octets, r.tlvs[k])
    {
      if k > |z.tlvs| {
        ParsedTlvMoves(z, z', r, r.tlvs[k]);
      }
    }
    NextTlvMoves(z, z', r);
  }

  lemma OnceAgrees(z: TlvScan, z': TlvScan, c: Decoded, r: TlvScan)
    requires z.at + z.size <= |z.octets| && z.size > TLV_HDR && c.Accepted?
    requires |c.octets| == z.size && TLV_HDR <= c.len <= z.size && MinTlvSize(c.id) <= c.len
    requires var s := z.octets[z.at..z.at + z.size];
      && c.octets[..c.len] == SwapTlv(c.id, s[..c.len])
      && c.octets[c.len..] == s[c.len..]
      && HostTlv(c.id, c.octets[..c.len])
    requires z'.octets == Splice(z.octets, z.at, c.octets) && z'.at == z.at + c.len
    requires |r.octets| == |z.octets| && forall i :: 0 <= i < z'.at ==> r.octets[i] == z'.octets[i]
    ensures forall i :: 0 <= i < |z.octets| && (i < z.at || z'.at <= i) ==> z'.octets[i] == z.octets[i]
    ensures ParsedTlv(z.octets, r.octets, Tlv(z.at, c.len, c.id))
  {
    hide SwapTlv, HostTlv, MinTlvSize;
    var s, t := z.octets[z.at..z.at + z.size], Tlv(z.at, c.len, c.id);
    forall i | z'.at <= i < z.at + z.size
      ensures z'.octets[i] == z.octets[i]
    {
      assert c.octets[i - z.at] == c.octets[c.len..][i - z.at - c.len] == s[c.len..][i - z.at - c.len];
    }
    SpliceFront(z.octets, z.at, c.octets, c.len);
    assert TlvOctets(r.octets, t) == TlvOctets(z'.octets, t);
    assert s[..c.len] == z.octets[z.at..z.at + c.len];
  }

  lemma SpliceFront(s: seq<octet>, at: nat, t: seq<octet>, n: nat)
    requires at + |t| <= |s| && n <= |t|
    ensures Splice(s, at, t)[at..at + n] == t[..n]
  {
  }

  lemma ParsedTlvMoves(z: TlvScan, z': TlvScan, r: TlvScan, t: Tlv)
    requires |z.octets| == |z'.octets| && z'.at <= t.at && ParsedTlv(z'.octets, r.octets, t)
    requires forall i :: z'.at <= i < |z.octets| ==> z'.octets[i] == z.octets[i]
    ensures ParsedTlv(z.octets, r.octets, t)
  {
    hide SwapTlv, HostTlv, MinTlvSize;
    assert TlvOctets(z'.octets, t) == TlvOctets(z.octets, t);
  }

  lemma NextTlvMoves(z: TlvScan, z': TlvScan, r: TlvScan)
    requires |z.octets| == |z'.octets| == |r.octets| && z'.at <= r.at && r.at + r.size <= |z.octets|
    requires forall i :: z'.at <= i < |z.octets| ==> z'.octets[i] == z.octets[i]
    requires NextTlv(z', r)
    ensures NextTlv(z, r)
  {
    hide DecodeTlv;
    assert z'.octets[r.at..r.at + r.size] == z.octets[r.at..r.at + r.size];
  }

  /** The TLV loop stopped for want of octets or of room, or at a TLV that is refused. */
  predicate StopsFor(s: seq<octet>, m: Msg)
    requires m.Msg? && m.end <= m.len <= |s|
  {
    m.len - m.end <= TLV_HDR || |m.tlvs| == MAX_TLVS || DecodeTlv(s[m.end..m.len]).Refused?
  }

  /**
   Parsing any octets.  The parameters are the big-endian reading of the
   header.  The accepted TLVs tile a prefix of the body, each obeys the size
   law of its type and is the host form of the octets received; end + left is
   the buffer size; beyond the header, the accepted TLVs and the next four
   octets nothing changes; and the scan stops only for want of octets, of
   room, or at a TLV that is refused.
   */
  lemma ParseFrames(s: seq<octet>, used: nat)
    requires ClaimsHeader(s, used) && Parse(s, used).Parsed?
    ensures var r := Parse(s, used);
      && r.params == WireParams(s)
      && MSG_SIZE <= r.msg.end <= r.msg.len == Wire16(s, 2) <= used <= |s|
      && r.msg.kind == r.params.kind
      && r.msg.end + r.msg.left == |s|
      && |r.msg.tlvs| <= MAX_TLVS && Tiled(r.msg.tlvs) && TlvsEnd(r.msg.tlvs) == r.msg.end
      && (forall k :: 0 <= k < |r.msg.tlvs| ==> ParsedTlv(s, r.octets, r.msg.tlvs[k]))
      && (forall i :: r.msg.end + TLV_HDR <= i < |s| ==> r.octets[i] == s[i])
      && r.octets[..MSG_SIZE] == SwapHeader(s)[..MSG_SIZE]
      && StopsFor(s, r.msg)
  {
    hide DecodeTlv, SwapTlv, HostTlv, MinTlvSize, HeaderFlip, HeaderAccepted, WireParams, ParamsAt, SwapTlvHeader, Scanned,
      ScanTlvs, SwapHeader, Get16, Wire16, Tiled, TlvsEnd, ParsedTlv;
    var h := SwapHeader(s);
    var len := Get16(h, 2);
    HeaderOrders(s);
    SwapHeaderLocal(s, s);
    var z := TlvScan(h, MSG_SIZE, len - MSG_SIZE, []);
    EmptyTiled();
    ScanFrames(z);
    BodyScanned(s, z, ScanTlvs(z));
    SameHeader(h, ScanTlvs(z).octets);
  }

  lemma EmptyTiled()
    ensures Tiled([]) && TlvsEnd([]) == MSG_SIZE
  {
  }

  /** What the scan of a body says of the octets received. */
  lemma BodyScanned(s: seq<octet>, z: TlvScan, r: TlvScan)
    requires z.at == MSG_SIZE && z.tlvs == [] && z.at + z.size <= |z.octets| == |s|
    requires z.octets[MSG_SIZE..] == s[MSG_SIZE..]
    requires Scanned(z, r)
    ensures forall k :: 0 <= k < |r.tlvs| ==> ParsedTlv(s, r.octets, r.tlvs[k])
    ensures forall i :: r.at + TLV_HDR <= i < |s| ==> r.octets[i] == s[i]
    ensures forall i :: 0 <= i < MSG_SIZE ==> r.octets[i] == z.octets[i]
    ensures |r.octets| == |s| && r.at + r.size == z.at + z.size && MSG_SIZE <= r.at
    ensures Tiled(r.tlvs) && TlvsEnd(r.tlvs) == r.at && |r.tlvs| <= MAX_TLVS
    ensures r.size <= TLV_HDR || |r.tlvs| == MAX_TLVS || DecodeTlv(s[r.at..r.at + r.size]).Refused?
  {
    hide DecodeTlv, SwapTlv, HostTlv, MinTlvSize, SwapTlvHeader, Tiled, TlvsEnd, ParsedTlv;
    forall i | MSG_SIZE <= i < |s|
      ensures z.octets[i] == s[i]
    {
      assert z.octets[MSG_SIZE..][i - MSG_SIZE] == s[MSG_SIZE..][i - MSG_SIZE];
    }
    var z' := z.(octets := s);
    assert z.octets[r.at..r.at + r.size] == s[r.at..r.at + r.size];
    forall k | 0 <= k < |r.tlvs|
      ensures ParsedTlv(s, r.octets, r.tlvs[k])
    {
      ParsedTlvMoves(z', z, r, r.tlvs[k]);
    }
  }

  lemma SameHeader(h: seq<octet>, o: seq<octet>)
    requires |h| == |o| >= MSG_SIZE && forall i :: 0 <= i < MSG_SIZE ==> o[i] == h[i]
    ensures ParamsAt(h) == ParamsAt(o) && h[0] % 16 == ParamsAt(o).kind && o[..MSG_SIZE] == h[..MSG_SIZE]
  {
  }

  /**
   The exact domain in which parse stays in its buffer: the size it passes to
   the TLV loop, a difference in 64 bits, is at most what the buffer has after
   the header if and only if a message that gets to the loop claims a header.
   */
  lemma ScanSizeInBuffer(s: seq<octet>, used: nat)
    requires |s| <= MAX_MESSAGE
    ensures (ReachesTlvs(s, used) ==> WrappedDifference(s) <= |s| - MSG_SIZE) <==> ClaimsHeader(s, used)
  {
    hide HeaderAccepted, SwapHeader, Get16, Wire16;
    if MSG_SIZE <= used <= |s| {
      HeaderOrders(s);
      Wraps(Wire16(s, 2));
    }
  }

  /** messageLength less the header size, in 64 bits. */
  function WrappedDifference(s: seq<octet>): nat
    requires |s| >= MSG_SIZE
  {
    (Wire16(s, 2) - MSG_SIZE) % 0x1_0000_0000_0000_0000
  }

  lemma Wraps(len: u16)
    ensures (len - MSG_SIZE) % 0x1_0000_0000_0000_0000
      == if len >= MSG_SIZE then len - MSG_SIZE else 0x1_0000_0000_0000_0000 + len - MSG_SIZE
  {
  }

  /** A rejected message is not recorded; at most its header was swapped. */
  lemma RejectedKeeps(s: seq<octet>, used: nat)
    requires ClaimsHeader(s, used) && Parse(s, used).Rejected?
    ensures Parse(s, used).octets == s || (|s| >= MSG_SIZE && Parse(s, used).octets == SwapHeader(s))
  {
  }

  /** A parsed message is ready for every builder call. */
  lemma ParsedIsReady(s: seq<octet>, used: nat)
    requires ClaimsHeader(s, used) && Parse(s, used).Parsed? && |s| <= MAX_MESSAGE
    ensures Ready(Work(Parse(s, used).octets, used, Parse(s, used).msg))
  {
    hide DecodeTlv, SwapTlv, HostTlv, MinTlvSize, Parse, Tiled, NameFits, TlvsEnd, WireParams, SwapHeader;
    ParseFrames(s, used);
    var r := Parse(s, used);
    forall k | 0 <= k < |r.msg.tlvs|
      ensures NameFits(r.msg.tlvs[k].id, TlvOctets(r.octets, r.msg.tlvs[k]))
    {
      assert ParsedTlv(s, r.octets, r.msg.tlvs[k]);
      HostNameFits(r.msg.tlvs[k].id, TlvOctets(r.octets, r.msg.tlvs[k]));
    }
  }

  lemma HostNameFits(id: u16, t: seq<octet>)
    requires HostTlv(id, t)
    ensures NameFits(id, t)
  {
  }

  /**
   The round trip over every run: init, any fills and adds.  The run leaves a
   message that buildDone can take exactly if no call added a time-zone name
   of 255 octets; buildDone then succeeds exactly for an accepted size and
   matching addresses; and if parse accepts, the only difference in the TLV
   table is a PAD of exactly four octets, built but not recorded.
   */
  lemma RunThenParse(w0: Work, p: Params, ops: seq<Op>, ws: seq<Work>, size: nat)
    requires Run(w0, p, ops, ws)
    ensures Started(ws[|ops|], p)
    ensures Ready(ws[|ops|]) <==> forall i {:trigger ops[i]} :: 0 <= i < |ops| ==> !AddsLongName(ws[i], ops[i])
    ensures var w := ws[|ops|];
      Ready(w) ==>
        && Building(w, p)
        && (BuildDone(w, size).0 <==> SizeAccepted(w, size) && AddressesMatch(w.octets, w.msg.tlvs))
        && (BuildDone(w, size).0 ==>
              var b := BuildDone(w, size).1;
              && b.used == FullSize(w, size) == Wire16(b.octets, 2)
              && WireParams(b.octets) == p
              && (Parse(b.octets, b.used).Parsed? <==> p.flagField2 < 0x40)
              && (p.flagField2 < 0x40 ==>
                    var r := Parse(b.octets, b.used);
                    && r == Parsed(ReadBack(w, size), p, ReadBackMsg(w, size))
                    && (FullSize(w, size) != w.msg.len + TLV_HDR ==> r.msg.tlvs == b.msg.tlvs)
                    && (FullSize(w, size) == w.msg.len + TLV_HDR ==> r.msg.tlvs == w.msg.tlvs)))
  {
    hide BuildDone, Parse, ReadBack, WireParams, Init, TlvsBuilt, HeaderOctets, Tiled, TlvsFit, AddressesMatch, NamesOk,
      TlvsRecorded;
    RunBuilds(w0, p, ops, ws, |ops|);
    var w := ws[|ops|];
    StartedIsBuilding(w, p);
    if Ready(w) {
      BuildDoneSucceeds(w, p, size);
      if BuildDone(w, size).0 {
        BuildThenParse(w, p, size);
        BuiltTable(w, p, size);
      }
    }
  }

  lemma BuiltTable(w: Work, p: Params, size: nat)
    requires Building(w, p) && BuildDone(w, size).0
    ensures SizeAccepted(w, size)
    ensures BuildDone(w, size).1.msg.tlvs ==
            if FullSize(w, size) > w.msg.len && |w.msg.tlvs| < MAX_TLVS
            then w.msg.tlvs + [Tlv(w.msg.end, FullSize(w, size) - w.msg.end, PAD)] else w.msg.tlvs
  {
    hide EncodeTlvs, Sealed, HeaderOctets, TlvsBuilt, Tiled, TlvsFit;
  }

  // Parsing does not depend on what the buffer holds beyond the message.

  lemma {:induction false} ScanLocal(z: TlvScan, tail: seq<octet>)
    requires z.at + z.size <= |z.octets| && |z.tlvs| <= MAX_TLVS
    ensures var r := ScanTlvs(z); ScanTlvs(z.(octets := z.octets + tail)) == r.(octets := r.octets + tail)
    decreases MAX_TLVS - |z.tlvs|
  {
    hide DecodeTlv, Splice, MinTlvSize, ScanTlvs;
    var y := z.(octets := z.octets + tail);
    ScanStep(z);
    ScanStep(y);
    if z.size > TLV_HDR && |z.tlvs| < MAX_TLVS {
      var at := z.at;
      SliceLocal(z.octets, tail, at, z.size);
      var c := DecodeTlv(z.octets[at..at + z.size]);
      SpliceLocal(z.octets, tail, at, c.octets);
      if c.Accepted? {
        ScanLocal(TlvScan(Splice(z.octets, at, c.octets), at + c.len, z.size - c.len, z.tlvs + [Tlv(at, c.len, c.id)]), tail);
      }
    }
  }

  /** One step of the TLV loop. */
  lemma ScanStep(z: TlvScan)
    requires z.at + z.size <= |z.octets| && |z.tlvs| <= MAX_TLVS
    ensures
      if z.size <= TLV_HDR || |z.tlvs| >= MAX_TLVS then ScanTlvs(z) == z
      else
        var c := DecodeTlv(z.octets[z.at..z.at + z.size]);
        var o := Splice(z.octets, z.at, c.octets);
        if c.Refused? then ScanTlvs(z) == z.(octets := o)
        else ScanTlvs(z) == ScanTlvs(TlvScan(o, z.at + c.len, z.size - c.len, z.tlvs + [Tlv(z.at, c.len, c.id)]))
  {
    hide DecodeTlv, Splice, MinTlvSize;
  }

  lemma SliceLocal(s: seq<octet>, tail: seq<octet>, at: nat, n: nat)
    requires at + n <= |s|
    ensures (s + tail)[at..at + n] == s[at..at + n]
  {
  }

  lemma SpliceLocal(s: seq<octet>, tail: seq<octet>, at: nat, t: seq<octet>)
    requires at + |t| <= |s|
    ensures Splice(s + tail, at, t) == Splice(s, at, t) + tail
  {
  }

  /** A message in a larger buffer is read as it is read alone; only the octets left differ. */
  lemma ParseLocal(m: seq<octet>, tail: seq<octet>)
    requires ClaimsHeader(m, |m|)
    ensures ClaimsHeader(m + tail, |m|)
    ensures match Parse(m, |m|)
      case Rejected(o) => Parse(m + tail, |m|) == Rejected(o + tail)
      case Parsed(o, p, msg) => Parse(m + tail, |m|) == Parsed(o + tail, p, msg.(left := msg.left + |tail|))
  {
    hide ScanTlvs, HeaderAccepted, ParamsAt, HeaderFlip, Get16;
    if |m| >= MSG_SIZE {
      var h := SwapHeader(m);
      assert SwapHeader(m + tail) == h + tail by { HeaderFlipInside(); }
      SameAccepted(h, tail);
      var len := Get16(h, 2);
      assert Get16(h, 2) == Wire16(m, 2) by { HeaderOrders(m); }
      if len <= |m| && HeaderAccepted(h) {
        var z := TlvScan(h, MSG_SIZE, len - MSG_SIZE, []);
        ScanLocal(z, tail);
        SameAccepted(ScanTlvs(z).octets, tail);
      }
    }
  }

  lemma HeaderFlipInside()
    ensures forall k :: 0 <= k < MSG_SIZE ==> 0 <= HeaderFlip(k) < MSG_SIZE
  {
  }

  lemma SameAccepted(h: seq<octet>, tail: seq<octet>)
    requires |h| >= MSG_SIZE
    ensures HeaderAccepted(h + tail) == HeaderAccepted(h) && ParamsAt(h + tail) == ParamsAt(h)
    ensures Get16(h + tail, 2) == Get16(h, 2) && Wire16(h + tail, 2) == Wire16(h, 2)
  {
    assert forall k :: 20 <= k < 30 ==> (h + tail)[k] == h[k];
  }
}
