/**
 Messages as sequences of parts: what a caller of the message calls puts into
 each TLV, how that looks on the wire, and that a receiver finds it again.
 */
module Parts {
  import opened Octets
  import opened Wrappers
  import opened Wire
  import opened Message
  import opened Builder
  import opened RoundTrip
  import opened Parsing

  /** The octets a built message puts on the wire. */
  function Sent(w: Work): seq<octet>
    requires w.used <= |w.octets|
  {
    w.octets[..w.used]
  }

  // Adding a TLV.

  /** The caller of nextTlv fills in what follows the header of the next TLV. */
  function FillBody(w: Work, body: seq<octet>): Work
    requires w.msg.Msg? && w.msg.end + w.msg.left == |w.octets| && TLV_HDR + |body| <= w.msg.left
  {
    w.(octets := Splice(w.octets, w.msg.end + TLV_HDR, body))
  }

  lemma FilledReady(w: Work, body: seq<octet>)
    requires Ready(w) && w.msg.Msg? && TLV_HDR + |body| <= w.msg.left
    ensures Ready(FillBody(w, body))
  {
    hide Tiled, NameFits, MinTlvSize;
    var w' := FillBody(w, body);
    var tlvs := w.msg.tlvs;
    forall k | 0 <= k < |tlvs|
      ensures tlvs[k].at + tlvs[k].len <= |w'.octets| && TlvOctets(w'.octets, tlvs[k]) == TlvOctets(w.octets, tlvs[k])
    {
      TiledBounds(tlvs, k);
    }
  }

  /** nextTlv, the caller's stores, addTlv. */
  function AddBody(w: Work, need: nat, id: u16, body: seq<octet>): Option<Work>
    requires Ready(w) && TLV_HDR + |body| <= need
  {
    if !HasRoom(w, need) then None
    else
      FilledReady(w, body);
      var a := AddTlv(FillBody(w, body), id);
      if a.0 then Some(a.1) else None
  }

  /** Nothing is added without room for what is asked for, or where addTlv fails; else what addTlv makes of the filled octets. */
  lemma AddBodyIs(w: Work, need: nat, id: u16, body: seq<octet>)
    requires Ready(w) && TLV_HDR + |body| <= need
    ensures !(w.msg.Msg? && need + need % 2 <= w.msg.left && |w.msg.tlvs| < 4) ==> AddBody(w, need, id, body) == None
    ensures w.msg.Msg? && need + need % 2 <= w.msg.left && |w.msg.tlvs| < 4 ==>
      var filled := w.(octets := w.octets[..w.msg.end + 4] + body + w.octets[w.msg.end + 4 + |body|..]);
      && Laid(filled) && (AddBody(w, need, id, body) == None <==> !AddTlv(filled, id).0)
      && (AddTlv(filled, id).0 ==> AddBody(w, need, id, body) == Some(AddTlv(filled, id).1))
  {
    hide Tiled, TlvsFit, AddTlv;
  }

  /** What a filled and added TLV is: its body as the caller stored it, after a header of its type and length. */
  predicate Added(w: Work, r: Work, id: u16, body: seq<octet>) {
    && w.msg.Msg? && r.msg.Msg? && |r.msg.tlvs| == |w.msg.tlvs| + 1
    && (var t := r.msg.tlvs[|w.msg.tlvs|];
        && r.msg.tlvs == w.msg.tlvs + [t] && t.at == w.msg.end && t.id == id
        && MinTlvSize(id) <= t.len <= 48 && TLV_HDR + |body| <= t.len
        && r.msg.end == t.at + t.len && r.msg.left == w.msg.left - t.len
        && t.at + t.len <= |w.octets| == |r.octets|
        && r.octets[t.at + TLV_HDR..t.at + TLV_HDR + |body|] == body
        && r.octets[..t.at] == w.octets[..t.at])
  }

  /** A body that addTlv takes to be as long as it is, but for the pad octet of an odd-length name. */
  predicate Fits(id: u16, body: seq<octet>) {
    && (id == ALT_TIME || id == CSPTP_RESPONSE || id == CSPTP_STATUS)
    && MinTlvSize(id) <= TLV_HDR + |body|
    && (id == ALT_TIME ==> |body| - 16 == body[15] && body[15] <= MAX_TZ_LEN)
    && (id == CSPTP_RESPONSE ==> |body| == 24)
    && (id == CSPTP_STATUS ==>
          && |body| == 28 + AddressSize(Get16(body, 24))
          && Get16(body, 26) == AddressSize(Get16(body, 24)) != 0)
  }

  lemma FilledSizeIs(id: u16, body: seq<octet>, u: seq<octet>)
    requires Fits(id, body) && TLV_HDR + |body| <= |u| && u[TLV_HDR..TLV_HDR + |body|] == body
    ensures FilledSize(id, u) == Some(MakeEven(TLV_HDR + |body|))
    ensures 0 < MinTlvSize(id) <= MakeEven(TLV_HDR + |body|) <= 48
    ensures id == ALT_TIME ==> u[19] != 255
  {
    forall i | 0 <= i < |body|
      ensures u[TLV_HDR + i] == body[i]
    {
      assert u[TLV_HDR..TLV_HDR + |body|][i] == u[TLV_HDR + i];
    }
  }

  lemma AddBodyBuilds(w: Work, p: Params, need: nat, id: u16, body: seq<octet>)
    requires Building(w, p) && Fits(id, body) && TLV_HDR + |body| <= need
    ensures AddBody(w, need, id, body).Some? <==> HasRoom(w, need)
    ensures AddBody(w, need, id, body).Some? ==>
      var r := AddBody(w, need, id, body).value;
      Building(r, p) && Added(w, r, id, body) && r.msg.end == w.msg.end + MakeEven(TLV_HDR + |body|)
  {
    hide HeaderOctets, Tiled, TlvsFit, TlvsBuilt, NameFits, FilledSize, Fits, MinTlvSize, Splice;
    if HasRoom(w, need) {
      var f, sz := FillBody(w, body), MakeEven(TLV_HDR + |body|);
      TailBuilds(w, f, p);
      FilledTlv(w, id, body);
      AddTlvBuilds(f, p, id);
      AddedBy(w, id, body, sz);
    }
  }

  lemma FilledTlv(w: Work, id: u16, body: seq<octet>)
    requires Ready(w) && w.msg.Msg? && |w.msg.tlvs| < MAX_TLVS
    requires Fits(id, body) && MakeEven(TLV_HDR + |body|) <= w.msg.left
    ensures Ready(FillBody(w, body)) && Fillable(FillBody(w, body), id)
    ensures var f, sz := FillBody(w, body), MakeEven(TLV_HDR + |body|);
      MinTlvSize(id) <= sz <= 48 && AddTlv(f, id) == (true, Record(WithTlvHeader(f, id, sz), sz, id))
  {
    hide NameFits, FilledSize, Fits, Tiled, TlvsFit;
    FilledReady(w, body);
    var f := FillBody(w, body);
    var u := f.octets[w.msg.end..];
    assert u[TLV_HDR..TLV_HDR + |body|] == body;
    FilledSizeIs(id, body, u);
  }

  lemma AddedBy(w: Work, id: u16, body: seq<octet>, sz: nat)
    requires Ready(w) && w.msg.Msg? && TLV_HDR + |body| <= sz <= w.msg.left && MinTlvSize(id) <= sz <= 48
    ensures Added(w, Record(WithTlvHeader(FillBody(w, body), id, sz), sz, id), id, body)
  {
    hide NameFits, Tiled, TlvsFit;
    var f, end := FillBody(w, body), w.msg.end;
    var r := Record(WithTlvHeader(f, id, sz), sz, id);
    assert r.octets[end + TLV_HDR..end + TLV_HDR + |body|] == body;
    assert r.octets[..end] == w.octets[..end];
  }

  // Parts.

  /** What a TLV is to tell: its id, and the octets after its header. */
  datatype Part = Part(id: u16, body: seq<octet>)

  function PartSize(q: Part): nat {
    MakeEven(TLV_HDR + |q.body|)
  }

  /** The whole TLV in host order: type, length, body, and a zero after an odd-length name. */
  function PartHost(q: Part): (t: seq<octet>)
    requires Fits(q.id, q.body) && |q.body| <= 44
    ensures |t| == PartSize(q) && |t| >= TLV_HDR && |t| >= MinTlvSize(q.id)
  {
    Put16(q.id) + Put16(PartSize(q) - TLV_HDR) + q.body + seq(|q.body| % 2, _ => 0)
  }

  /** The TLV on the wire. */
  function PartWire(q: Part): (t: seq<octet>)
    requires Fits(q.id, q.body) && |q.body| <= 44
    ensures |t| == PartSize(q)
  {
    SwapTlv(q.id, PartHost(q))
  }

  /** The table of TLVs for parts that follow the header and each other. */
  function Layout(parts: seq<Part>): (tlvs: seq<Tlv>)
    ensures |tlvs| == |parts|
  {
    if parts == [] then []
    else
      var n := |parts| - 1;
      var front := Layout(parts[..n]);
      front + [Tlv(TlvsEnd(front), PartSize(parts[n]), parts[n].id)]
  }

  predicate Formed(parts: seq<Part>) {
    forall k :: 0 <= k < |parts| ==> Fits(parts[k].id, parts[k].body) && |parts[k].body| <= 44
  }

  /** TLV t of s has this body. */
  predicate HasBody(s: seq<octet>, t: Tlv, body: seq<octet>) {
    && t.at + t.len <= |s| && TLV_HDR + |body| <= t.len
    && s[t.at + TLV_HDR..t.at + TLV_HDR + |body|] == body
  }

  /** A message under construction with exactly these parts. */
  predicate Holds(w: Work, parts: seq<Part>) {
    && w.msg.Msg? && Formed(parts) && w.msg.tlvs == Layout(parts)
    && forall k :: 0 <= k < |parts| ==> HasBody(w.octets, w.msg.tlvs[k], parts[k].body)
  }

  lemma {:induction false} LayoutAt(parts: seq<Part>, k: nat)
    requires k < |parts|
    ensures Layout(parts)[k].id == parts[k].id && Layout(parts)[k].len == PartSize(parts[k])
    ensures Layout(parts)[k].at == TlvsEnd(Layout(parts)[..k])
  {
    var n := |parts| - 1;
    if k < n {
      LayoutAt(parts[..n], k);
      assert Layout(parts)[..k] == Layout(parts[..n])[..k];
    } else {
      assert Layout(parts)[..n] == Layout(parts[..n]);
    }
  }

  lemma LayoutMore(parts: seq<Part>, q: Part)
    ensures Layout(parts + [q]) == Layout(parts) + [Tlv(TlvsEnd(Layout(parts)), PartSize(q), q.id)]
  {
    assert (parts + [q])[..|parts|] == parts;
  }

  lemma Kept(s: seq<octet>, s': seq<octet>, end: nat, t: Tlv)
    requires t.at + t.len <= end <= |s| == |s'| && s'[..end] == s[..end]
    ensures TlvOctets(s', t) == TlvOctets(s, t)
  {
    forall i | t.at <= i < t.at + t.len
      ensures s'[i] == s[i]
    {
      assert s'[..end][i] == s[..end][i];
    }
  }

  lemma BodyKept(s: seq<octet>, s': seq<octet>, end: nat, t: Tlv, body: seq<octet>)
    requires HasBody(s, t, body) && t.at + t.len <= end <= |s| == |s'| && s'[..end] == s[..end]
    ensures HasBody(s', t, body)
  {
    Kept(s, s', end, t);
    BodyIn(s, t, body);
    BodyIn(s', t, body);
  }

  lemma BodyIn(s: seq<octet>, t: Tlv, body: seq<octet>)
    requires t.at + t.len <= |s| && TLV_HDR + |body| <= t.len
    ensures HasBody(s, t, body) <==> TlvOctets(s, t)[TLV_HDR..TLV_HDR + |body|] == body
  {
    assert s[t.at + TLV_HDR..t.at + TLV_HDR + |body|] == TlvOctets(s, t)[TLV_HDR..TLV_HDR + |body|];
  }

  /** Adding a body that fits adds a part, and the others stay. */
  lemma AddBodyHolds(w: Work, p: Params, need: nat, parts: seq<Part>, q: Part)
    requires Building(w, p) && Holds(w, parts) && Fits(q.id, q.body) && TLV_HDR + |q.body| <= need
    ensures AddBody(w, need, q.id, q.body).Some? <==> HasRoom(w, need)
    ensures AddBody(w, need, q.id, q.body).Some? ==>
      var r := AddBody(w, need, q.id, q.body).value;
      && Building(r, p) && Holds(r, parts + [q])
      && r.msg.end == w.msg.end + PartSize(q) && |r.octets| == |w.octets|
  {
    hide Building, Fits, AddBody, Holds, Added;
    BuildingFacts(w, p);
    AddBodyBuilds(w, p, need, q.id, q.body);
    if AddBody(w, need, q.id, q.body).Some? {
      BuildingEnd(w, p);
      AddedHolds(w, AddBody(w, need, q.id, q.body).value, parts, q);
    }
  }

  lemma AddedHolds(w: Work, r: Work, parts: seq<Part>, q: Part)
    requires Holds(w, parts) && Fits(q.id, q.body) && Added(w, r, q.id, q.body)
    requires Tiled(w.msg.tlvs) && w.msg.end == TlvsEnd(w.msg.tlvs) && r.msg.end == w.msg.end + PartSize(q)
    ensures Holds(r, parts + [q]) && |r.octets| == |w.octets|
  {
    hide Fits, HasBody, Tiled;
    LayoutMore(parts, q);
    NewBody(w, r, q);
    forall k | 0 <= k < |parts|
      ensures HasBody(r.octets, r.msg.tlvs[k], parts[k].body)
    {
      TiledBounds(w.msg.tlvs, k);
      BodyKept(w.octets, r.octets, w.msg.end, w.msg.tlvs[k], parts[k].body);
    }
  }

  lemma NewBody(w: Work, r: Work, q: Part)
    requires Added(w, r, q.id, q.body)
    ensures HasBody(r.octets, r.msg.tlvs[|w.msg.tlvs|], q.body) && |q.body| <= 44
  {
  }

  lemma BuildingEnd(w: Work, p: Params)
    requires Building(w, p)
    ensures w.msg.end == TlvsEnd(w.msg.tlvs) && Tiled(w.msg.tlvs) && w.msg.end <= |w.octets| <= MAX_MESSAGE
    ensures |w.msg.tlvs| <= MAX_TLVS
  {
  }

  lemma BuildingFacts(w: Work, p: Params)
    requires Building(w, p)
    ensures Ready(w) && w.msg.Msg? && w.msg.len == w.msg.end == w.used && w.msg.end + w.msg.left == |w.octets|
  {
  }

  lemma BuiltSize(w: Work, p: Params, size: nat)
    requires Building(w, p) && SizeAccepted(w, size)
    ensures MSG_SIZE <= FullSize(w, size) <= |w.octets|
  {
  }

  /** The octets of a recorded TLV, as they are read back. */
  lemma ReadBackTlv(w: Work, size: nat, k: nat)
    requires Ready(w) && w.msg.Msg? && w.msg.len == w.msg.end && SizeAccepted(w, size) && k < |w.msg.tlvs|
    ensures var t := w.msg.tlvs[k];
      t.at + t.len <= |w.octets| && TlvOctets(ReadBack(w, size), t) == ZeroPad(t.id, TlvOctets(w.octets, t))
  {
    hide NamesPadded, ZeroPad, PadOctets, SwapTlv, Tiled, NameFits;
    var t := w.msg.tlvs[k];
    TiledBounds(w.msg.tlvs, k);
    PaddedTlv(w.octets, w.msg.tlvs, k);
    assert TlvOctets(ReadBack(w, size), t) == TlvOctets(NamesPadded(w.octets, w.msg.tlvs), t);
  }

  /** The host octets of a TLV are those of its part, once its name is padded. */
  lemma PartIs(q: Part, t: seq<octet>)
    requires Fits(q.id, q.body) && |q.body| <= 44 && BuiltTlv(q.id, t) && |t| == PartSize(q)
    requires t[TLV_HDR..TLV_HDR + |q.body|] == q.body
    ensures NameFits(q.id, t) && ZeroPad(q.id, t) == PartHost(q)
    ensures q.id == CSPTP_STATUS ==> Get16(t, 30) == AddressSize(Get16(t, 28))
  {
    hide MinTlvSize;
    forall i | 0 <= i < |q.body|
      ensures t[TLV_HDR + i] == q.body[i]
    {
      assert t[TLV_HDR..TLV_HDR + |q.body|][i] == t[TLV_HDR + i];
    }
    BuiltFits(q.id, t);
    Loaded16(t, 0);
    Loaded16(t, 2);
    PartEnds(q, t);
    var z, h := ZeroPad(q.id, t), PartHost(q);
    forall i | 0 <= i < |t|
      ensures z[i] == h[i]
    {
    }
  }

  lemma BuiltFits(id: u16, t: seq<octet>)
    requires BuiltTlv(id, t)
    ensures NameFits(id, t)
  {
  }

  lemma Loaded16(s: seq<octet>, o: nat)
    requires o + 2 <= |s|
    ensures s[o] == Put16(Get16(s, o))[0] && s[o + 1] == Put16(Get16(s, o))[1]
  {
  }

  /** Where a body has odd length, it is a name, and the octet after it is the one that is padded. */
  lemma PartEnds(q: Part, t: seq<octet>)
    requires Fits(q.id, q.body) && BuiltTlv(q.id, t) && |t| == PartSize(q)
    requires forall i :: 0 <= i < |q.body| ==> t[TLV_HDR + i] == q.body[i]
    ensures |q.body| % 2 == 1 ==> q.id == ALT_TIME && t[19] % 2 == 1 && |t| == 21 + t[19]
    ensures |q.body| % 2 == 0 ==> |t| == TLV_HDR + |q.body| && (q.id == ALT_TIME ==> t[19] % 2 == 0)
  {
  }

  lemma HoldsTlv(w: Work, p: Params, parts: seq<Part>, k: nat)
    requires Building(w, p) && Holds(w, parts) && k < |parts|
    ensures var t := w.msg.tlvs[k];
      && t.id == parts[k].id && t.len == PartSize(parts[k]) && t.at + t.len <= w.msg.end <= |w.octets|
      && MSG_SIZE <= t.at
      && NameFits(t.id, TlvOctets(w.octets, t)) && ZeroPad(t.id, TlvOctets(w.octets, t)) == PartHost(parts[k])
  {
    hide Fits, PartHost, ZeroPad, NameFits, Building, BuiltTlv, Tiled, TlvsEnd, Layout;
    BuildingEnd(w, p);
    BuildingTlv(w, p, k);
    LayoutAt(parts, k);
    TiledBounds(w.msg.tlvs, k);
    BodyIn(w.octets, w.msg.tlvs[k], parts[k].body);
    PartIs(parts[k], TlvOctets(w.octets, w.msg.tlvs[k]));
  }

  lemma BuildingTlv(w: Work, p: Params, k: nat)
    requires Building(w, p) && k < |w.msg.tlvs|
    ensures w.msg.tlvs[k].at + w.msg.tlvs[k].len <= |w.octets|
    ensures BuiltTlv(w.msg.tlvs[k].id, TlvOctets(w.octets, w.msg.tlvs[k]))
  {
  }

  lemma HoldsAddresses(w: Work, p: Params, parts: seq<Part>)
    requires Building(w, p) && Holds(w, parts)
    ensures AddressesMatch(w.octets, w.msg.tlvs)
  {
    hide Fits, PartHost, ZeroPad, HeaderOctets, NameFits;
    forall k | 0 <= k < |w.msg.tlvs| && w.msg.tlvs[k].id == CSPTP_STATUS
      ensures var t := TlvOctets(w.octets, w.msg.tlvs[k]); Get16(t, 30) == AddressSize(Get16(t, 28))
    {
      LayoutAt(parts, k);
      BodyIn(w.octets, w.msg.tlvs[k], parts[k].body);
      PartIs(parts[k], TlvOctets(w.octets, w.msg.tlvs[k]));
    }
  }

  // A whole message.

  /** m has these parts on the wire, and then a PAD if it is longer. */
  predicate Carries(m: seq<octet>, parts: seq<Part>) {
    var tlvs := Layout(parts);
    var end := TlvsEnd(tlvs);
    && Formed(parts) && end <= |m| <= MAX_MESSAGE && (|m| == end || TLV_HDR <= |m| - end)
    && (forall k :: 0 <= k < |parts| ==>
          tlvs[k].at + tlvs[k].len <= end && TlvOctets(m, tlvs[k]) == PartWire(parts[k]))
    && (|m| > end ==> m[end..] == PadOctets(|m| - end))
  }

  /** Whoever parses m finds these parts, in host order, and a PAD of more than four octets, and nothing else. */
  predicate IsFound(m: seq<octet>, parts: seq<Part>) {
    var tlvs := Layout(parts);
    var end := TlvsEnd(tlvs);
    && Formed(parts) && ClaimsHeader(m, |m|) && Parse(m, |m|).Parsed?
    && var r := Parse(m, |m|);
      && r.msg.tlvs == tlvs + (if |m| > end + TLV_HDR then [Tlv(end, |m| - end, PAD)] else [])
      && forall k :: 0 <= k < |parts| ==>
           tlvs[k].at + tlvs[k].len <= |m| && TlvOctets(r.octets, tlvs[k]) == PartHost(parts[k])
  }

  lemma PartsSent(w: Work, p: Params, parts: seq<Part>, size: nat)
    requires Building(w, p) && Holds(w, parts) && BuildDone(w, size).0
    ensures var b := BuildDone(w, size).1;
      && b.used == FullSize(w, size) <= |b.octets| && WireParams(b.octets) == p && Carries(Sent(b), parts)
  {
    hide Holds, Building, BuildDone, WireParams, PartWire, SwapTlv, ZeroPad, NameFits, PadOctets, Fits, Tiled, TlvsFit,
      EncodeTlvs, NamesPadded, SwapHeader, ReadBack, Splice, Parse, TlvsBuilt, Put16;
    BuildingFacts(w, p);
    BuildingEnd(w, p);
    HoldsIs(w, parts);
    BuildThenParse(w, p, size);
    BuiltRegions(w, p, size);
    var b, end := BuildDone(w, size).1, w.msg.end;
    var m, e := Sent(b), EncodeTlvs(w.octets, w.msg.tlvs, 0).1;
    forall k | 0 <= k < |parts|
      ensures w.msg.tlvs[k].at + w.msg.tlvs[k].len <= end && TlvOctets(m, w.msg.tlvs[k]) == PartWire(parts[k])
    {
      HoldsTlv(w, p, parts, k);
      PartEncoded(w, p, parts, k);
      SameTlv(m, e, end, w.msg.tlvs[k]);
    }
    assert b.used > end ==> m[end..] == b.octets[end..b.used];
  }

  lemma HoldsIs(w: Work, parts: seq<Part>)
    requires Holds(w, parts)
    ensures w.msg.Msg? && Formed(parts) && w.msg.tlvs == Layout(parts)
  {
  }

  lemma SameTlv(m: seq<octet>, e: seq<octet>, end: nat, t: Tlv)
    requires MSG_SIZE <= t.at && t.at + t.len <= end <= |m| <= |e|
    requires forall i :: MSG_SIZE <= i < end ==> m[i] == e[i]
    ensures TlvOctets(m, t) == TlvOctets(e, t)
  {
  }

  lemma PartEncoded(w: Work, p: Params, parts: seq<Part>, k: nat)
    requires Building(w, p) && Holds(w, parts) && k < |parts|
    requires Tiled(w.msg.tlvs) && TlvsFit(w.octets, w.msg.tlvs) && EncodeTlvs(w.octets, w.msg.tlvs, 0).0
    requires w.msg.tlvs[k].at + w.msg.tlvs[k].len <= |w.octets|
    ensures TlvOctets(EncodeTlvs(w.octets, w.msg.tlvs, 0).1, w.msg.tlvs[k]) == PartWire(parts[k])
  {
    hide Building, Holds, SwapTlv, ZeroPad, NameFits, Fits, Tiled, EncodeTlvs, EncodeTlv, PartHost;
    HoldsIs(w, parts);
    EncodedTlvs(w.octets, w.msg.tlvs, 0);
    HoldsTlv(w, p, parts, k);
  }

  lemma PartsFound(w: Work, p: Params, parts: seq<Part>, size: nat)
    requires Building(w, p) && Holds(w, parts) && |parts| < MAX_TLVS && BuildDone(w, size).0 && p.flagField2 < 0x40
    ensures var b := BuildDone(w, size).1;
      b.used <= |b.octets| && IsFound(Sent(b), parts)
  {
    hide Holds, Building, BuildDone, WireParams, ZeroPad, NameFits, Fits, PartHost, ReadBack, Parse, ReadBackMsg, Wire16,
      Tiled, Layout, TlvsFit, MinTlvSize, HeaderAccepted, SwapHeader;
    BuildingFacts(w, p);
    BuildingEnd(w, p);
    HoldsIs(w, parts);
    BuildThenParse(w, p, size);
    BuiltTlvs(w, size);
    var b := BuildDone(w, size).1;
    var m, rest := Sent(b), b.octets[b.used..];
    assert b.octets == m + rest;
    assert Wire16(m, 2) == Wire16(b.octets, 2) by { Wire16Front(m, rest); }
    ParseLocal(m, rest);
    forall k | 0 <= k < |parts|
      ensures var t := w.msg.tlvs[k];
        t.at + t.len <= |m| && TlvOctets(Parse(m, |m|).octets, t) == PartHost(parts[k])
    {
      HoldsTlv(w, p, parts, k);
      ReadBackTlv(w, size, k);
      FrontTlv(Parse(m, |m|).octets, rest, w.msg.tlvs[k]);
    }
  }

  lemma Wire16Front(m: seq<octet>, rest: seq<octet>)
    requires |m| >= 4
    ensures Wire16(m + rest, 2) == Wire16(m, 2)
  {
  }

  lemma FrontTlv(o: seq<octet>, rest: seq<octet>, t: Tlv)
    requires t.at + t.len <= |o|
    ensures TlvOctets(o + rest, t) == TlvOctets(o, t)
  {
  }

  /** The table a receiver has of a built message: the PAD of exactly four octets is the one TLV it does not record. */
  lemma BuiltTlvs(w: Work, size: nat)
    requires w.msg.Msg? && Ready(w) && w.msg.len == w.msg.end && SizeAccepted(w, size) && |w.msg.tlvs| < MAX_TLVS
    ensures ReadBackMsg(w, size).Msg? && FullSize(w, size) >= w.msg.end
    ensures ReadBackMsg(w, size).tlvs == w.msg.tlvs +
      if FullSize(w, size) > w.msg.end + TLV_HDR then [Tlv(w.msg.end, FullSize(w, size) - w.msg.end, PAD)] else []
  {
  }
}
