/**
 What building keeps: the builder invariant over every run of fills and
 adds, and exactly when buildDone succeeds.
 */
module Builder {
  import opened Octets
  import opened Wrappers
  import opened Wire
  import opened Message

  /** nextTlv: whether there is room for a TLV that needs so many octets. */
  predicate HasRoom(w: Work, need: nat) {
    w.msg.Msg? && MakeEven(need) <= w.msg.left && |w.msg.tlvs| != MAX_TLVS
  }

  /** One builder call: the caller fills unused octets, or adds a TLV. */
  datatype Op = Fill(data: seq<octet>) | Add(id: u16) | AddReq(flags: octet)

  predicate Allowed(w: Work, op: Op) {
    w.msg.Msg? && (op.Fill? ==> |op.data| <= w.msg.left)
  }

  function Step(w: Work, op: Op): (bool, Work)
    requires Laid(w) && Allowed(w, op)
  {
    match op
    case Fill(data) => (true, w.(octets := Splice(w.octets, w.msg.end, data)))
    case Add(id) => AddTlv(w, id)
    case AddReq(flags) => AddReqTlv(w, flags)
  }

  /** A recorded TLV, in host order, as the add calls leave it. */
  predicate BuiltTlv(id: u16, t: seq<octet>) {
    && (id == ALT_TIME || id == CSPTP_REQUEST || id == CSPTP_RESPONSE || id == CSPTP_STATUS)
    && MinTlvSize(id) <= |t|
    && Get16(t, 0) == id
    && Get16(t, 2) + TLV_HDR == |t|
    && |t| % 2 == 0
    && (id == ALT_TIME ==> |t| == 20 + MakeEven(t[19]) && t[19] <= MAX_TZ_LEN)
    && (id == CSPTP_REQUEST || id == CSPTP_RESPONSE ==> |t| == MinTlvSize(id))
    && (id == CSPTP_STATUS ==>
          AddressSize(Get16(t, 28)) != 0 && |t| == 32 + AddressSize(Get16(t, 28)))
  }

  /** The one other TLV addTlv records: a time-zone name of 255 octets, whose rounded length wraps to 0 in a uint8_t. */
  predicate WrappedTlv(id: u16, t: seq<octet>) {
    id == ALT_TIME && |t| == 20 && Get16(t, 0) == id && Get16(t, 2) + TLV_HDR == |t| && t[19] == 255
  }

  predicate TlvsRecorded(s: seq<octet>, tlvs: seq<Tlv>) {
    forall k :: 0 <= k < |tlvs| ==>
      && tlvs[k].at + tlvs[k].len <= |s|
      && (BuiltTlv(tlvs[k].id, TlvOctets(s, tlvs[k])) || WrappedTlv(tlvs[k].id, TlvOctets(s, tlvs[k])))
  }

  /** What every run of the builder keeps, of a message started by init with parameters p. */
  predicate Started(w: Work, p: Params) {
    && w.msg.Msg?
    && Laid(w)
    && ControlField(p.kind).Some?
    && w.msg.kind == p.kind
    && w.msg.len == w.msg.end == w.used == TlvsEnd(w.msg.tlvs)
    && w.octets[..MSG_SIZE] == HeaderOctets(p)
    && TlvsRecorded(w.octets, w.msg.tlvs)
  }

  /** No recorded time-zone name has 255 octets; a caller of addTlv can see to that. */
  predicate NamesOk(w: Work)
    requires w.msg.Msg?
  {
    forall k :: 0 <= k < |w.msg.tlvs| && w.msg.tlvs[k].id == ALT_TIME ==>
      var i := w.msg.tlvs[k].at + 19; i < |w.octets| ==> w.octets[i] != 255
  }

  /** The builder invariant of a message started by init with parameters p. */
  predicate Building(w: Work, p: Params) {
    && w.msg.Msg?
    && Ready(w)
    && ControlField(p.kind).Some?
    && w.msg.kind == p.kind
    && w.msg.len == w.msg.end == w.used == TlvsEnd(w.msg.tlvs)
    && w.octets[..MSG_SIZE] == HeaderOctets(p)
    && TlvsBuilt(w.octets, w.msg.tlvs)
  }

  predicate TlvsBuilt(s: seq<octet>, tlvs: seq<Tlv>) {
    forall k :: 0 <= k < |tlvs| ==>
      tlvs[k].at + tlvs[k].len <= |s| && BuiltTlv(tlvs[k].id, TlvOctets(s, tlvs[k]))
  }

  /**
   What runs keep is the builder invariant, and what buildDone needs, if and
   only if no recorded name has 255 octets.
   */
  lemma StartedIsBuilding(w: Work, p: Params)
    requires Started(w, p)
    ensures Building(w, p) <==> NamesOk(w)
    ensures Ready(w) <==> NamesOk(w)
  {
    hide HeaderOctets, Tiled, MinTlvSize, Get16;
    forall k | 0 <= k < |w.msg.tlvs|
      ensures var t := w.msg.tlvs[k];
        && t.at + t.len <= |w.octets|
        && (t.id == ALT_TIME ==> t.at + 19 < |w.octets|)
        && (NameFits(t.id, TlvOctets(w.octets, t)) <==> (t.id == ALT_TIME ==> w.octets[t.at + 19] != 255))
        && (BuiltTlv(t.id, TlvOctets(w.octets, t)) <==> (t.id == ALT_TIME ==> w.octets[t.at + 19] != 255))
    {
      var t := w.msg.tlvs[k];
      RecordedName(t.id, TlvOctets(w.octets, t));
      if t.id == ALT_TIME {
        assert TlvOctets(w.octets, t)[19] == w.octets[t.at + 19];
      }
    }
  }

  lemma RecordedName(id: u16, t: seq<octet>)
    requires BuiltTlv(id, t) || WrappedTlv(id, t)
    ensures id == ALT_TIME ==> |t| >= 20
    ensures NameFits(id, t) <==> (id == ALT_TIME ==> t[19] != 255)
    ensures BuiltTlv(id, t) <==> (id == ALT_TIME ==> t[19] != 255)
  {
  }

  lemma BuildingIsStarted(w: Work, p: Params)
    requires Building(w, p)
    ensures Laid(w) && w.msg.Msg? && Started(w, p) && NamesOk(w)
  {
    hide HeaderOctets, Tiled, BuiltTlv, WrappedTlv, NameFits;
    assert Started(w, p);
    StartedIsBuilding(w, p);
  }

  lemma InitBuilds(w: Work, p: Params)
    requires |w.octets| <= MAX_MESSAGE
    ensures Init(w, p).0 <==> |w.octets| >= MSG_SIZE && ControlField(p.kind).Some?
    ensures Init(w, p).0 ==> Building(Init(w, p).1, p) && Init(w, p).1.msg.tlvs == []
  {
  }

  /** Octets after the recorded TLVs may change without touching the recorded TLVs. */
  lemma TailKeepsTlvs(s: seq<octet>, s': seq<octet>, tlvs: seq<Tlv>)
    requires Tiled(tlvs) && |s| == |s'| && TlvsEnd(tlvs) <= |s|
    requires forall i :: MSG_SIZE <= i < TlvsEnd(tlvs) ==> s'[i] == s[i]
    ensures forall k :: 0 <= k < |tlvs| ==>
              tlvs[k].at + tlvs[k].len <= |s| && TlvOctets(s', tlvs[k]) == TlvOctets(s, tlvs[k])
  {
    forall k | 0 <= k < |tlvs|
      ensures tlvs[k].at + tlvs[k].len <= |s| && TlvOctets(s', tlvs[k]) == TlvOctets(s, tlvs[k])
    {
      TiledBounds(tlvs, k);
    }
  }

  /** Recording one more TLV at the end of a tiling. */
  lemma TiledAppend(tlvs: seq<Tlv>, t: Tlv)
    requires Tiled(tlvs) && t.at == TlvsEnd(tlvs) && t.len >= TLV_HDR && t.len >= MinTlvSize(t.id)
    ensures Tiled(tlvs + [t]) && TlvsEnd(tlvs + [t]) == t.at + t.len
  {
    assert (tlvs + [t])[..|tlvs|] == tlvs;
  }

  /** A successful add records the TLV at the front of the unused octets. */
  lemma RecordStarts(w: Work, w': Work, p: Params, sz: nat, id: u16)
    requires Started(w, p) && |w.msg.tlvs| < MAX_TLVS
    requires TLV_HDR <= sz <= w.msg.left && MinTlvSize(id) <= sz
    requires w'.used == w.used && w'.msg == w.msg && |w'.octets| == |w.octets|
    requires forall i :: 0 <= i < w.msg.end ==> w'.octets[i] == w.octets[i]
    requires var t := w'.octets[w.msg.end..w.msg.end + sz]; BuiltTlv(id, t) || WrappedTlv(id, t)
    ensures Started(Record(w', sz, id), p)
  {
    hide BuiltTlv, WrappedTlv, HeaderOctets, NameFits, MinTlvSize;
    var r := Record(w', sz, id);
    var tlvs, t := w.msg.tlvs, Tlv(w.msg.end, sz, id);
    TiledAppend(tlvs, t);
    TailKeepsTlvs(w.octets, w'.octets, tlvs);
    assert r.octets[..MSG_SIZE] == w.octets[..MSG_SIZE];
    forall k | 0 <= k < |tlvs| + 1
      ensures var u := r.msg.tlvs[k];
        u.at + u.len <= |r.octets| && (BuiltTlv(u.id, TlvOctets(r.octets, u)) || WrappedTlv(u.id, TlvOctets(r.octets, u)))
    {
      if k < |tlvs| {
        assert r.msg.tlvs[k] == tlvs[k];
      } else {
        assert r.msg.tlvs[k] == t;
        assert TlvOctets(r.octets, t) == w'.octets[w.msg.end..w.msg.end + sz];
      }
    }
  }

  /** A TLV the caller filled in, once addTlv has stored its type and length. */
  lemma FilledIsRecorded(id: u16, u: seq<octet>, sz: nat)
    requires MinTlvSize(id) <= |u| <= MAX_MESSAGE
    requires FilledSize(id, u) == Some(sz) && sz <= |u|
    ensures MinTlvSize(id) <= sz && TLV_HDR <= sz
    ensures var t := Put16(id) + Put16(sz - TLV_HDR) + u[4..sz]; BuiltTlv(id, t) || WrappedTlv(id, t)
  {
    hide BuiltTlv, WrappedTlv, Put16;
    var t := Put16(id) + Put16(sz - TLV_HDR) + u[4..sz];
    HeaderLoads(Put16(id), Put16(sz - TLV_HDR), u[4..sz]);
    forall i | 4 <= i < sz
      ensures t[i] == u[i]
    {
    }
    FilledBody(id, u, sz, t);
  }

  lemma HeaderLoads(a: seq<octet>, b: seq<octet>, rest: seq<octet>)
    requires |a| == 2 && |b| == 2
    ensures Get16(a + b + rest, 0) == Get16(a, 0) && Get16(a + b + rest, 2) == Get16(b, 0)
  {
  }

  lemma FilledBody(id: u16, u: seq<octet>, sz: nat, t: seq<octet>)
    requires MinTlvSize(id) <= |u| <= MAX_MESSAGE && FilledSize(id, u) == Some(sz) && sz == |t| <= |u|
    requires Get16(t, 0) == id && Get16(t, 2) + TLV_HDR == sz && forall i :: 4 <= i < sz ==> t[i] == u[i]
    ensures BuiltTlv(id, t) || WrappedTlv(id, t)
  {
    assert id == CSPTP_STATUS ==> Get16(t, 28) == Get16(u, 28);
  }

  /** What addTlv's caller sees to: a time-zone name of 255 octets would round up to 0 in a uint8_t. */
  predicate Fillable(w: Work, id: u16)
    requires Laid(w)
  {
    id == ALT_TIME && w.msg.Msg? && w.msg.left >= 20 ==> w.octets[w.msg.end + 19] != 255
  }

  lemma AddTlvStarts(w: Work, p: Params, id: u16)
    requires Started(w, p)
    ensures Started(AddTlv(w, id).1, p)
    ensures !AddTlv(w, id).0 ==> AddTlv(w, id).1.msg == w.msg
    ensures AddTlv(w, id).0 ==>
      exists sz :: AddTlv(w, id).1.msg.tlvs == w.msg.tlvs + [Tlv(w.msg.end, sz, id)]
    ensures NamesOk(AddTlv(w, id).1) <==> NamesOk(w) && (AddTlv(w, id).0 ==> Fillable(w, id))
  {
    hide BuiltTlv, WrappedTlv, HeaderOctets, Tiled, TlvsRecorded, FilledSize, NamesOk, AddTlv, Splice, MinTlvSize;
    AddTlvIs(w, id);
    var r := AddTlv(w, id).1;
    if AddTlv(w, id).0 {
      var u := w.octets[w.msg.end..];
      var sz := FilledSize(id, u).value;
      var f := Put16(id) + Put16(sz - TLV_HDR);
      FilledIsRecorded(id, u, sz);
      SplicedSlice(w.octets, w.msg.end, f, sz);
      RecordStarts(w, WithTlvHeader(w, id, sz), p, sz, id);
      NamesAfter(w, p, r, Tlv(w.msg.end, sz, id));
    } else {
      TailStarts(w, r, p);
    }
  }

  /** The state after addTlv, in the one case and the other. */
  lemma AddTlvIs(w: Work, id: u16)
    requires Laid(w) && w.msg.Msg?
    ensures var r := AddTlv(w, id);
      if r.0 then
        && |w.msg.tlvs| < MAX_TLVS && MinTlvSize(id) <= w.msg.left
        && var sz := FilledSize(id, w.octets[w.msg.end..]);
          sz.Some? && TLV_HDR <= sz.value <= w.msg.left && r.1 == Record(WithTlvHeader(w, id, sz.value), sz.value, id)
      else
        && r.1.msg == w.msg && r.1.used == w.used && |r.1.octets| == |w.octets|
        && forall i :: 0 <= i < w.msg.end ==> r.1.octets[i] == w.octets[i]
  {
    hide Tiled, FilledSize;
  }

  /** One more TLV, its name in the place where the caller put it. */
  lemma NamesAfter(w: Work, p: Params, r: Work, t: Tlv)
    requires Started(w, p) && r.msg.Msg? && r.msg.tlvs == w.msg.tlvs + [t] && |r.octets| == |w.octets|
    requires t.at == w.msg.end && (forall i :: 0 <= i < |w.octets| && !(t.at <= i < t.at + 4) ==> r.octets[i] == w.octets[i])
    ensures NamesOk(r) <==>
      NamesOk(w) && (t.id == ALT_TIME ==> t.at + 19 < |w.octets| ==> w.octets[t.at + 19] != 255)
  {
    hide HeaderOctets, BuiltTlv, WrappedTlv;
    var n := |w.msg.tlvs|;
    assert r.msg.tlvs[n] == t && forall k :: 0 <= k < n ==> r.msg.tlvs[k] == w.msg.tlvs[k];
    forall k | 0 <= k < n && w.msg.tlvs[k].id == ALT_TIME
      ensures w.msg.tlvs[k].at + 19 < w.msg.end
    {
      TiledBounds(w.msg.tlvs, k);
    }
    if NamesOk(r) {
      forall k | 0 <= k < n && w.msg.tlvs[k].id == ALT_TIME
        ensures var i := w.msg.tlvs[k].at + 19; i < |w.octets| ==> w.octets[i] != 255
      {
        assert r.msg.tlvs[k].id == ALT_TIME;
      }
    }
  }

  lemma SplicedSlice(s: seq<octet>, end: nat, f: seq<octet>, sz: nat)
    requires |f| <= sz && end + sz <= |s|
    ensures Splice(s, end, f)[end..end + sz] == f + s[end..][|f|..sz]
  {
  }

  /** Writing unused octets keeps the invariant. */
  lemma TailStarts(w: Work, w': Work, p: Params)
    requires Started(w, p) && w'.msg == w.msg && w'.used == w.used && |w'.octets| == |w.octets|
    requires forall i :: 0 <= i < w.msg.end ==> w'.octets[i] == w.octets[i]
    ensures Started(w', p) && (NamesOk(w') <==> NamesOk(w))
  {
    hide HeaderOctets, BuiltTlv, WrappedTlv;
    TailKeepsTlvs(w.octets, w'.octets, w.msg.tlvs);
    assert w'.octets[..MSG_SIZE] == w.octets[..MSG_SIZE];
    forall k | 0 <= k < |w.msg.tlvs| && w.msg.tlvs[k].id == ALT_TIME
      ensures w.msg.tlvs[k].at + 19 < w.msg.end
    {
      TiledBounds(w.msg.tlvs, k);
    }
  }

  lemma AddReqTlvStarts(w: Work, p: Params, flags: octet)
    requires Started(w, p)
    ensures Started(AddReqTlv(w, flags).1, p) && (NamesOk(AddReqTlv(w, flags).1) <==> NamesOk(w))
    ensures AddReqTlv(w, flags).0 <==> |w.msg.tlvs| < MAX_TLVS && w.msg.left >= 8
    ensures !AddReqTlv(w, flags).0 ==> AddReqTlv(w, flags).1 == w
    ensures AddReqTlv(w, flags).0 ==>
      AddReqTlv(w, flags).1.msg.tlvs == w.msg.tlvs + [Tlv(w.msg.end, 8, CSPTP_REQUEST)]
  {
    hide HeaderOctets, BuiltTlv, WrappedTlv, NamesOk, Tiled, TlvsRecorded, Put16;
    if |w.msg.tlvs| < MAX_TLVS && w.msg.left >= 8 {
      var t := Put16(CSPTP_REQUEST) + Put16(4) + [flags % 4, 0, 0, 0];
      var w' := w.(octets := Splice(w.octets, w.msg.end, t));
      TailStarts(w, w', p);
      assert w'.octets[w.msg.end..w.msg.end + 8] == t;
      RequestIsBuilt(flags);
      RecordStarts(w, w', p, 8, CSPTP_REQUEST);
      NamesAfter(w', p, AddReqTlv(w, flags).1, Tlv(w.msg.end, 8, CSPTP_REQUEST));
    }
  }

  lemma RequestIsBuilt(flags: octet)
    ensures BuiltTlv(CSPTP_REQUEST, Put16(CSPTP_REQUEST) + Put16(4) + [flags % 4, 0, 0, 0])
  {
    HeaderLoads(Put16(CSPTP_REQUEST), Put16(4), [flags % 4, 0, 0, 0]);
  }

  // The same with the builder invariant.

  lemma TailBuilds(w: Work, w': Work, p: Params)
    requires Building(w, p) && w'.msg == w.msg && w'.used == w.used && |w'.octets| == |w.octets|
    requires forall i :: 0 <= i < w.msg.end ==> w'.octets[i] == w.octets[i]
    ensures Building(w', p)
  {
    hide Building, Started, NamesOk;
    BuildingIsStarted(w, p);
    TailStarts(w, w', p);
    StartedIsBuilding(w', p);
  }

  lemma AddTlvBuilds(w: Work, p: Params, id: u16)
    requires Building(w, p) && Fillable(w, id)
    ensures Building(AddTlv(w, id).1, p)
    ensures !AddTlv(w, id).0 ==> AddTlv(w, id).1.msg == w.msg
    ensures AddTlv(w, id).0 ==>
      exists sz :: AddTlv(w, id).1.msg.tlvs == w.msg.tlvs + [Tlv(w.msg.end, sz, id)]
  {
    hide Building, Started, NamesOk, AddTlv;
    BuildingIsStarted(w, p);
    AddTlvStarts(w, p, id);
    StartedIsBuilding(AddTlv(w, id).1, p);
  }

  lemma AddReqTlvBuilds(w: Work, p: Params, flags: octet)
    requires Building(w, p)
    ensures Building(AddReqTlv(w, flags).1, p)
    ensures AddReqTlv(w, flags).0 <==> |w.msg.tlvs| < MAX_TLVS && w.msg.left >= 8
    ensures !AddReqTlv(w, flags).0 ==> AddReqTlv(w, flags).1 == w
    ensures AddReqTlv(w, flags).0 ==>
      AddReqTlv(w, flags).1.msg.tlvs == w.msg.tlvs + [Tlv(w.msg.end, 8, CSPTP_REQUEST)]
  {
    hide Building, Started, NamesOk, AddReqTlv;
    BuildingIsStarted(w, p);
    AddReqTlvStarts(w, p, flags);
    StartedIsBuilding(AddReqTlv(w, flags).1, p);
  }

  /** Exactly when addTlv keeps the builder invariant, for every id: it fails, or the name has not 255 octets. */
  lemma AddTlvKeeps(w: Work, p: Params, id: u16)
    requires Building(w, p)
    ensures Building(AddTlv(w, id).1, p) <==> (AddTlv(w, id).0 ==> Fillable(w, id))
    ensures Ready(AddTlv(w, id).1) <==> (AddTlv(w, id).0 ==> Fillable(w, id))
  {
    hide Building, Started, NamesOk, AddTlv;
    BuildingIsStarted(w, p);
    AddTlvStarts(w, p, id);
    StartedIsBuilding(AddTlv(w, id).1, p);
  }

  /**
   A name of 255 octets: addTlv accepts it and records a TLV of 20 octets
   that does not hold it, and buildDone is not safe any more.
   */
  lemma NameOf255(w: Work, p: Params)
    requires Building(w, p) && HasRoom(w, 20) && w.octets[w.msg.end + 19] == 255
    ensures AddTlv(w, ALT_TIME).0
    ensures var r, t := AddTlv(w, ALT_TIME).1, Tlv(w.msg.end, 20, ALT_TIME);
      && r.msg.Msg? && r.msg.tlvs == w.msg.tlvs + [t]
      && t.at + t.len <= |r.octets| && !NameFits(ALT_TIME, TlvOctets(r.octets, t)) && !Ready(r)
  {
    hide Building, AddTlv, MinTlvSize, Put16;
    BuildingIsStarted(w, p);
    AddTlvKeeps(w, p, ALT_TIME);
    LongNameAdds(w);
    var r := AddTlv(w, ALT_TIME).1;
    assert TlvOctets(r.octets, Tlv(w.msg.end, 20, ALT_TIME))[19] == r.octets[w.msg.end + 19];
  }

  lemma LongNameAdds(w: Work)
    requires Laid(w) && HasRoom(w, 20) && w.octets[w.msg.end + 19] == 255
    ensures AddTlv(w, ALT_TIME) == (true, Record(WithTlvHeader(w, ALT_TIME, 20), 20, ALT_TIME))
  {
    hide Tiled, Put16;
  }

  /** Filling stores the caller's octets at the end of the message, and no other; it never fails. */
  lemma FillStores(w: Work, data: seq<octet>)
    requires Laid(w) && w.msg.Msg? && |data| <= w.msg.left
    ensures Allowed(w, Fill(data)) && Step(w, Fill(data)).0
    ensures var v, e := Step(w, Fill(data)).1, w.msg.end;
      && v.msg == w.msg && v.used == w.used && |v.octets| == |w.octets| && v.octets[e..e + |data|] == data
      && forall k :: 0 <= k < |w.octets| && !(e <= k < e + |data|) ==> v.octets[k] == w.octets[k]
  {
    hide Tiled;
  }

  /** Every call of the builder: what it keeps, and when it records a name of 255 octets. */
  lemma StepStarts(w: Work, p: Params, op: Op)
    requires Started(w, p) && Allowed(w, op)
    ensures Started(Step(w, op).1, p)
    ensures !Step(w, op).0 ==> Step(w, op).1.msg == w.msg
    ensures NamesOk(Step(w, op).1) <==> NamesOk(w) && (op.Add? && Step(w, op).0 ==> Fillable(w, op.id))
  {
    hide AddTlv, AddReqTlv, NamesOk, HeaderOctets, TlvsRecorded, Tiled;
    match op
    case Fill(data) =>
      TailStarts(w, Step(w, op).1, p);
    case Add(id) => AddTlvStarts(w, p, id);
    case AddReq(flags) => AddReqTlvStarts(w, p, flags);
  }

  /** Builder call op, allowed in w, leads to v. */
  predicate Made(w: Work, op: Op, v: Work) {
    Allowed(w, op) && (Laid(w) ==> Step(w, op).1 == v)
  }

  /** A run of the builder: init, then calls, with the states they go through. */
  predicate Run(w0: Work, p: Params, ops: seq<Op>, ws: seq<Work>) {
    && |w0.octets| <= MAX_MESSAGE && |ws| == |ops| + 1 && Init(w0, p) == (true, ws[0])
    && forall k {:trigger ops[k]} :: 0 <= k < |ops| ==> Made(ws[k], ops[k], ws[k + 1])
  }

  /** The call adds a time-zone name of 255 octets. */
  predicate AddsLongName(w: Work, op: Op) {
    Laid(w) && Allowed(w, op) && op.Add? && Step(w, op).0 && !Fillable(w, op.id)
  }

  /**
   Over every run of fills and adds: what Started says, a failed add leaves
   the lengths and the TLV table as they were, and the builder invariant
   holds if and only if no call so far added a name of 255 octets.
   */
  lemma {:induction false} RunBuilds(w0: Work, p: Params, ops: seq<Op>, ws: seq<Work>, k: nat)
    requires Run(w0, p, ops, ws) && k <= |ops|
    ensures Started(ws[k], p)
    ensures k < |ops| && !Step(ws[k], ops[k]).0 ==> ws[k + 1].msg == ws[k].msg
    ensures Building(ws[k], p) <==> forall i {:trigger ops[i]} :: 0 <= i < k ==> !AddsLongName(ws[i], ops[i])
    ensures Building(ws[k], p) <==> NamesOk(ws[k])
  {
    hide Init, Step, Building, Allowed, NamesOk, Fillable, HeaderOctets, TlvsRecorded, Tiled;
    if k == 0 {
      InitBuilds(w0, p);
      BuildingIsStarted(ws[0], p);
    } else {
      RunBuilds(w0, p, ops, ws, k - 1);
      assert Made(ws[k - 1], ops[k - 1], ws[k]);
      StepStarts(ws[k - 1], p, ops[k - 1]);
      StartedIsBuilding(ws[k], p);
      assert AddsLongName(ws[k - 1], ops[k - 1]) <==> ops[k - 1].Add? && Step(ws[k - 1], ops[k - 1]).0 && !Fillable(ws[k - 1], ops[k - 1].id);
    }
    if k < |ops| {
      assert Made(ws[k], ops[k], ws[k + 1]);
      StepStarts(ws[k], p, ops[k]);
    }
  }

  predicate HostTlvs(s: seq<octet>, tlvs: seq<Tlv>, i: nat)
    requires TlvsFit(s, tlvs, i)
  {
    forall k :: i <= k < |tlvs| ==> HostTlv(tlvs[k].id, TlvOctets(s, tlvs[k]))
  }

  /** r holds the converted form of each TLV of s from the i-th on. */
  predicate ConvertedTlvs(s: seq<octet>, r: seq<octet>, tlvs: seq<Tlv>, i: nat)
    requires TlvsFit(s, tlvs, i) && |s| == |r|
  {
    forall k :: i <= k < |tlvs| ==>
      TlvOctets(r, tlvs[k]) == EncodeTlv(tlvs[k].id, TlvOctets(s, tlvs[k])).1
  }

  /** The conversion loop changes the octets of the TLVs it converts and no others. */
  lemma {:induction false} EncodeOutside(s: seq<octet>, tlvs: seq<Tlv>, i: nat, j: nat)
    requires i <= |tlvs| && Tiled(tlvs) && TlvsFit(s, tlvs, i)
    requires j < |s| && (i < |tlvs| ==> j < tlvs[i].at || TlvsEnd(tlvs) <= j)
    ensures EncodeTlvs(s, tlvs, i).1[j] == s[j]
    decreases |tlvs| - i
  {
    if i < |tlvs| {
      TiledBounds(tlvs, i);
      var e := EncodeTlv(tlvs[i].id, TlvOctets(s, tlvs[i]));
      SpliceKeepsLater(s, tlvs, i, e.1);
      if i + 1 < |tlvs| {
        TiledOrder(tlvs, i, i + 1);
      }
      if e.0 {
        EncodeOutside(Splice(s, tlvs[i].at, e.1), tlvs, i + 1, j);
      }
    }
  }

  /** The conversion loop succeeds iff every TLV obeys its size law, and then it converts each one. */
  lemma {:induction false} EncodedTlvs(s: seq<octet>, tlvs: seq<Tlv>, i: nat)
    requires i <= |tlvs| && Tiled(tlvs) && TlvsFit(s, tlvs, i)
    ensures EncodeTlvs(s, tlvs, i).0 <==> HostTlvs(s, tlvs, i)
    ensures EncodeTlvs(s, tlvs, i).0 ==> ConvertedTlvs(s, EncodeTlvs(s, tlvs, i).1, tlvs, i)
    decreases |tlvs| - i
  {
    hide SwapTlv, ZeroPad, EncodeTlv, HostTlv, NameFits, Tiled, MinTlvSize, TlvsEnd;
    if i < |tlvs| {
      TiledBounds(tlvs, i);
      var t := tlvs[i];
      var e := EncodeTlv(t.id, TlvOctets(s, t));
      SpliceKeepsLater(s, tlvs, i, e.1);
      if e.0 {
        var s' := Splice(s, t.at, e.1);
        EncodedTlvs(s', tlvs, i + 1);
        var r := EncodeTlvs(s', tlvs, i + 1).1;
        if i + 1 < |tlvs| {
          TiledOrder(tlvs, i, i + 1);
        }
        forall j | t.at <= j < t.at + t.len
          ensures r[j] == s'[j]
        {
          EncodeOutside(s', tlvs, i + 1, j);
        }
        assert TlvOctets(r, t) == e.1;
      }
    }
  }

  /** In a STATUS TLV the caller's address length must be the one of its protocol. */
  predicate AddressesMatch(s: seq<octet>, tlvs: seq<Tlv>)
    requires TlvsBuilt(s, tlvs)
  {
    forall k :: 0 <= k < |tlvs| && tlvs[k].id == CSPTP_STATUS ==>
      var t := TlvOctets(s, tlvs[k]);
      Get16(t, 30) == AddressSize(Get16(t, 28))
  }

  /** buildDone fails for a refused size or a STATUS address length that does not match, and for nothing else. */
  lemma BuildDoneSucceeds(w: Work, p: Params, size: nat)
    requires Building(w, p)
    ensures BuildDone(w, size).0 <==> SizeAccepted(w, size) && AddressesMatch(w.octets, w.msg.tlvs)
  {
    hide SwapTlv, ZeroPad, EncodeTlv;
    var tlvs := w.msg.tlvs;
    EncodedTlvs(w.octets, tlvs, 0);
    forall k | 0 <= k < |tlvs|
      ensures HostTlv(tlvs[k].id, TlvOctets(w.octets, tlvs[k])) <==>
        (tlvs[k].id == CSPTP_STATUS ==>
          var t := TlvOctets(w.octets, tlvs[k]);
          Get16(t, 30) == AddressSize(Get16(t, 28)))
    {
      assert BuiltTlv(tlvs[k].id, TlvOctets(w.octets, tlvs[k]));
    }
  }

  lemma EncodedNameFits(id: u16, t: seq<octet>)
    requires NameFits(id, t)
    ensures NameFits(id, EncodeTlv(id, t).1)
  {
    if id == ALT_TIME && |t| >= 20 {
      assert EncodeTlv(id, t).1[19] == t[19];
    }
  }

  /** The conversion loop, whether or not it gets to the end, leaves every name inside its TLV. */
  lemma {:induction false} EncodeKeepsFit(s: seq<octet>, tlvs: seq<Tlv>, i: nat)
    requires i <= |tlvs| && Tiled(tlvs) && TlvsFit(s, tlvs)
    ensures TlvsFit(EncodeTlvs(s, tlvs, i).1, tlvs)
    decreases |tlvs| - i
  {
    hide SwapTlv, ZeroPad, EncodeTlv, HostTlv, NameFits, Tiled, MinTlvSize, TlvsEnd;
    if i < |tlvs| {
      TiledBounds(tlvs, i);
      var e := EncodeTlv(tlvs[i].id, TlvOctets(s, tlvs[i]));
      var s' := Splice(s, tlvs[i].at, e.1);
      EncodedNameFits(tlvs[i].id, TlvOctets(s, tlvs[i]));
      SpliceKeepsLater(s, tlvs, i, e.1);
      forall k | 0 <= k < |tlvs|
        ensures NameFits(tlvs[k].id, TlvOctets(s', tlvs[k]))
      {
        if k < i {
          TiledOrder(tlvs, k, i);
          assert TlvOctets(s', tlvs[k]) == TlvOctets(s, tlvs[k]);
        } else if k == i {
          assert TlvOctets(s', tlvs[k]) == e.1;
        }
      }
      EncodeKeepsFit(s', tlvs, i + 1);
    }
  }

  /**
   buildDone keeps what every operation keeps; when it succeeds, the message
   length, the end and the buffer's data length are the size asked for, and
   the table tiles all of it unless a fifth TLV, the PAD, found it full.
   */
  lemma BuildDoneKeeps(w: Work, p: Params, size: nat)
    requires Building(w, p)
    ensures Ready(BuildDone(w, size).1)
    ensures !BuildDone(w, size).0 ==> BuildDone(w, size).1.msg == w.msg
    ensures BuildDone(w, size).0 ==>
      var r, full := BuildDone(w, size).1, if size == 0 then w.msg.len else size;
      && r.msg.len == r.msg.end == r.used == full
      && r.msg.end + r.msg.left == |r.octets|
      && (TlvsEnd(r.msg.tlvs) == r.msg.end || (|w.msg.tlvs| == MAX_TLVS && full > w.msg.len && r.msg.tlvs == w.msg.tlvs))
  {
    hide EncodeTlvs, Tiled, TlvsFit, TlvsBuilt, HeaderOctets, SwapHeader, PadOctets, TlvsEnd, MinTlvSize;
    var r, e, tlvs := BuildDone(w, size), EncodeTlvs(w.octets, w.msg.tlvs, 0), w.msg.tlvs;
    EncodeKeepsFit(w.octets, tlvs, 0);
    if r.0 {
      var full := if size == 0 then w.msg.len else size;
      var pad := full - w.msg.len;
      SealedBody(e.1, full, w.msg.end, pad);
      FitsMoved(e.1, r.1.octets, tlvs);
      if r.1.msg.tlvs != tlvs {
        PadAppended(r.1.octets, tlvs, w.msg.end, pad);
      }
    }
  }

  lemma SealedBody(e: seq<octet>, full: nat, end: nat, pad: nat)
    requires MSG_SIZE <= end && end + pad <= |e| <= MAX_MESSAGE
    ensures forall i :: MSG_SIZE <= i < end ==> Sealed(e, full, end, pad)[i] == e[i]
  {
    hide HeaderFlip;
  }

  lemma FitsMoved(s: seq<octet>, s': seq<octet>, tlvs: seq<Tlv>)
    requires Tiled(tlvs) && |s| == |s'| && TlvsEnd(tlvs) <= |s| && TlvsFit(s, tlvs)
    requires forall i :: MSG_SIZE <= i < TlvsEnd(tlvs) ==> s'[i] == s[i]
    ensures TlvsFit(s', tlvs)
  {
    hide NameFits, Tiled;
    TailKeepsTlvs(s, s', tlvs);
  }

  lemma PadAppended(s: seq<octet>, tlvs: seq<Tlv>, end: nat, pad: nat)
    requires Tiled(tlvs) && TlvsFit(s, tlvs) && end == TlvsEnd(tlvs) && pad >= TLV_HDR && end + pad <= |s|
    ensures var all := tlvs + [Tlv(end, pad, PAD)];
      Tiled(all) && TlvsFit(s, all) && TlvsEnd(all) == end + pad
  {
    hide Tiled;
    TiledAppend(tlvs, Tlv(end, pad, PAD));
  }
}
