/** The message object of src/msg.c: each call does in the buffer what Message.dfy says it does. */
module PtpMessage {
  import opened Octets
  import opened Wrappers
  import opened Wire
  import opened MessageObject
  import M = Message
  import B = Builder

  class PtpMsg {
    var buf: Buffer?
    var kind: octet
    var len: nat
    var end: nat
    var left: nat
    var tlvs: seq<M.Tlv>

    ghost function State(): M.Msg
      reads this
    {
      if buf == null then M.Detached else M.Msg(kind, len, end, left, tlvs)
    }

    /** The attached buffer and the message, as one value. */
    ghost function Held(): M.Work
      requires buf != null
      reads this, buf, buf.data
    {
      M.Work(buf.data[..], buf.len, State())
    }

    ghost predicate Valid()
      reads this, buf
    {
      buf != null ==> buf.Valid()
    }

    constructor ()
      ensures buf == null
    {
      buf := null;
      kind, len, end, left, tlvs := 0, 0, 0, 0, [];
    }

    method Detach()
      modifies this
      ensures State() == M.Detached
    {
      buf, len, left, tlvs := null, 0, 0, [];
    }

    method Init(p: M.Params, b: Buffer) returns (ok: bool)
      requires Valid() && b.Valid()
      modifies this, b, b.data
      ensures var r := M.Init(M.Work(old(b.data[..]), old(b.len), old(State())), p);
        && ok == r.0
        && b.data[..] == r.1.octets && b.len == r.1.used && State() == r.1.msg
      ensures buf == if ok then b else old(buf)
      ensures b.Valid()
    {
      if b.data.Length < MSG_SIZE {
        return false;
      }
      var control := M.ControlField(p.kind);
      if control.None? {
        return false;
      }
      ghost var s := b.data[..];
      StoreHeader(b.data, p, control.value);
      assert M.Splice(s, 0, M.HeaderOctets(p)) == M.HeaderOctets(p) + s[MSG_SIZE..];
      buf := b;
      len := MSG_SIZE;
      var _ := b.SetLen(MSG_SIZE);
      left := b.data.Length - MSG_SIZE;
      end := MSG_SIZE;
      kind := p.kind;
      tlvs := [];
      return true;
    }

    /** nextTlv: the position to fill a TLV that needs so many octets, or None. */
    function NextTlv(need: nat): (r: Option<nat>)
      reads this, buf, if buf == null then {} else {buf.data}
      ensures r.Some? <==> buf != null && B.HasRoom(Held(), need)
      ensures r.Some? ==> r.value == Held().msg.end
    {
      if buf == null || MakeEven(need) > left || |tlvs| == MAX_TLVS then None else Some(end)
    }

    /** The caller of nextTlv fills unused octets. */
    method Fill(data: seq<octet>)
      requires buf != null && Valid() && M.Laid(Held()) && |data| <= left
      modifies buf.data
      ensures Held() == B.Step(old(Held()), B.Fill(data)).1
    {
      Store(buf.data, end, data);
    }

    /** Records a TLV of sz octets at the end. */
    method Record(sz: nat, id: u16)
      requires buf != null && Valid() && sz <= left && end + left == buf.data.Length
      modifies this, buf
      ensures buf == old(buf) && Valid()
      ensures Held() == M.Record(old(Held()), sz, id)
    {
      tlvs := tlvs + [M.Tlv(end, sz, id)];
      end := end + sz;
      left := left - sz;
      len := len + sz;
      var _ := buf.SetLen(len);
    }

    method AddTlv(id: u16) returns (ok: bool)
      requires Valid() && (buf != null ==> M.Laid(Held()))
      modifies this, buf, if buf == null then {} else {buf.data}
      ensures buf == old(buf) && Valid()
      ensures buf == null ==> !ok && State() == old(State())
      ensures buf != null ==> (ok, Held()) == M.AddTlv(old(Held()), id)
    {
      hide NameFits, M.Tiled, M.TlvsFit, M.FilledSize, M.TlvsEnd;
      if buf == null {
        return false;
      }
      if |tlvs| == MAX_TLVS {
        return false;
      }
      if left < TLV_HDR {
        return false;
      }
      var sz := MinTlvSize(id);
      if sz == 0 {
        return false;
      }
      if sz > left {
        return false;
      }
      ghost var s := buf.data[..];
      Store(buf.data, end, Put16(id));
      FilledUntyped(s, end, id);
      var filled := M.FilledSize(id, buf.data[end..]);
      if filled.None? {
        return false;
      }
      if filled.value > left {
        return false;
      }
      Store(buf.data, end + 2, Put16(filled.value - TLV_HDR));
      TwoStores(s, end, id, filled.value - TLV_HDR);
      Record(filled.value, id);
      return true;
    }

    method AddCSPTPReqTlv(flags: octet) returns (ok: bool)
      requires Valid() && (buf != null ==> M.Laid(Held()))
      modifies this, buf, if buf == null then {} else {buf.data}
      ensures buf == old(buf) && Valid()
      ensures buf == null ==> !ok && State() == old(State())
      ensures buf != null ==> (ok, Held()) == M.AddReqTlv(old(Held()), flags)
    {
      if buf == null {
        return false;
      }
      if |tlvs| == MAX_TLVS {
        return false;
      }
      if left < 8 {
        return false;
      }
      StoreRequest(buf.data, end, flags);
      Record(8, CSPTP_REQUEST);
      return true;
    }

    /** The conversion loop of buildDone. */
    method ConvertTlvs() returns (ok: bool)
      requires buf != null && Valid() && M.Ready(Held())
      modifies buf.data
      ensures (ok, buf.data[..]) == M.EncodeTlvs(old(buf.data[..]), tlvs, 0)
    {
      hide NameFits, M.Tiled, M.TlvsEnd, M.TlvsFit, M.EncodeTlvs, M.Splice, MinTlvSize, EncodeTlv;
      ghost var s := buf.data[..];
      for i := 0 to |tlvs|
        invariant M.TlvsFit(buf.data[..], tlvs, i)
        invariant M.EncodeTlvs(s, tlvs, 0) == M.EncodeTlvs(buf.data[..], tlvs, i)
      {
        var t := tlvs[i];
        EncodeNext(buf.data[..], tlvs, i);
        var converted := CpuToNetTlv(buf.data, t.id, t.at, t.len);
        if !converted {
          return false;
        }
      }
      EncodeEnd(buf.data[..], tlvs);
      return true;
    }

    method BuildDone(size: nat) returns (ok: bool)
      requires Valid() && (buf != null ==> M.Ready(Held()))
      modifies this, buf, if buf == null then {} else {buf.data}
      ensures buf == old(buf) && Valid()
      ensures buf == null ==> !ok && State() == old(State())
      ensures buf != null ==> (ok, Held()) == M.BuildDone(old(Held()), size)
    {
      if buf == null {
        return false;
      }
      hide NameFits, M.Tiled, M.TlvsFit, M.TlvsEnd, MinTlvSize, M.EncodeTlvs, SwapHeader, M.PadOctets;
      var full := size;
      if size == 0 {
        full := len;
      } else {
        if size % 2 == 1 {
          return false;
        }
        if size < len {
          return false;
        }
        if size > buf.data.Length {
          return false;
        }
      }
      var pad := full - len;
      if pad > 0 && (pad < TLV_HDR || left < pad) {
        return false;
      }
      assert M.SizeAccepted(Held(), size);
      var converted := ConvertTlvs();
      if !converted {
        return false;
      }
      Seal(full);
      return true;
    }

    /** The end of buildDone: the data length, the header, the PAD. */
    method Seal(full: nat)
      requires buf != null && Valid() && MSG_SIZE <= end && end + left == buf.data.Length
      requires len <= full && full - len <= left && (full == len || full - len >= TLV_HDR)
      modifies this, buf, buf.data
      ensures buf == old(buf) && Valid()
      ensures Held() == M.Finished(old(Held()), full)
    {
      hide M.Sealed;
      var pad := full - len;
      var _ := buf.SetLen(full);
      SealOctets(buf.data, full, end, pad);
      if pad >= TLV_HDR {
        if |tlvs| < MAX_TLVS {
          tlvs := tlvs + [M.Tlv(end, pad, PAD)];
        }
        end := end + pad;
        len := len + pad;
        left := left - pad;
      }
    }

    /** The header converted with the message's length in it, and the PAD written. */
    static method SealOctets(b: array<octet>, full: nat, end: nat, pad: nat)
      requires MSG_SIZE <= end && end + pad <= b.Length <= MAX_MESSAGE
      modifies b
      ensures b[..] == M.Sealed(old(b[..]), full, end, pad)
    {
      hide SwapHeader, M.PadOctets, M.Splice, Put16;
      CpuToNetMsg(b, full);
      if pad >= TLV_HDR {
        StorePad(b, end, pad);
      }
    }

    /** The loop of parse over the body of a message of msgLen octets. */
    static method ScanBody(b: array<octet>, msgLen: nat) returns (at: nat, size: nat, found: seq<M.Tlv>)
      requires MSG_SIZE <= msgLen <= b.Length
      modifies b
      ensures M.ScanTlvs(M.TlvScan(old(b[..]), MSG_SIZE, msgLen - MSG_SIZE, [])) == M.TlvScan(b[..], at, size, found)
    {
      hide DecodeTlv, M.Splice, MinTlvSize;
      at, size, found := MSG_SIZE, msgLen - MSG_SIZE, [];
      ghost var z := M.ScanTlvs(M.TlvScan(b[..], at, size, found));
      while size > TLV_HDR && |found| < MAX_TLVS
        invariant at + size == msgLen && |found| <= MAX_TLVS
        invariant z == M.ScanTlvs(M.TlvScan(b[..], at, size, found))
        decreases MAX_TLVS - |found|
      {
        ghost var c := b[..];
        var t := NetToCpuTlv(b, at, size);
        if t.None? {
          return;
        }
        found := found + [M.Tlv(at, t.value.1, t.value.0)];
        at := at + t.value.1;
        size := size - t.value.1;
      }
    }

    method Parse(b: Buffer) returns (r: Option<M.Params>)
      requires Valid() && b.Valid() && M.ClaimsHeader(b.data[..], b.len)
      modifies this, b.data
      ensures b.Valid() && b.len == old(b.len)
      ensures match M.Parse(old(b.data[..]), b.len)
        case Rejected(octets) => r == None && b.data[..] == octets && unchanged(this)
        case Parsed(octets, params, msg) => r == Some(params) && b.data[..] == octets && State() == msg && buf == b
    {
      hide SwapHeader, M.HeaderAccepted, M.ParamsAt, M.ScanTlvs;
      if b.len < MSG_SIZE {
        return None;
      }
      var msgLen := NetToCpuMsg(b.data);
      if msgLen > b.len {
        return None;
      }
      var h := b.data[..];
      if !M.HeaderAccepted(h) {
        return None;
      }
      var at, size, found := ScanBody(b.data, msgLen);
      kind := h[0] % 16;
      buf := b;
      len := msgLen;
      left := size + b.data.Length - msgLen;
      end := at;
      tlvs := found;
      return Some(M.ParamsAt(b.data[..]));
    }
  }

  /** One step of the conversion loop of buildDone. */
  lemma EncodeNext(s: seq<octet>, tlvs: seq<M.Tlv>, i: nat)
    requires i < |tlvs| && M.Tiled(tlvs) && M.TlvsFit(s, tlvs, i)
    ensures var t := tlvs[i];
      && t.at + t.len <= |s| && t.len >= TLV_HDR && t.len >= MinTlvSize(t.id) && NameFits(t.id, M.TlvOctets(s, t))
      && var e := EncodeTlv(t.id, M.TlvOctets(s, t));
        var r := M.Splice(s, t.at, e.1);
        && M.TlvsFit(r, tlvs, i + 1)
        && M.EncodeTlvs(s, tlvs, i) == if e.0 then M.EncodeTlvs(r, tlvs, i + 1) else (false, r)
  {
    hide NameFits, M.Tiled, M.TlvsEnd, MinTlvSize, EncodeTlv;
    M.TiledBounds(tlvs, i);
    M.SpliceKeepsLater(s, tlvs, i, EncodeTlv(tlvs[i].id, M.TlvOctets(s, tlvs[i])).1);
  }

  lemma EncodeEnd(s: seq<octet>, tlvs: seq<M.Tlv>)
    requires M.Tiled(tlvs) && M.TlvsFit(s, tlvs, |tlvs|)
    ensures M.EncodeTlvs(s, tlvs, |tlvs|) == (true, s)
  {
  }

  /** The header, field by field, over zeros. */
  method StoreHeader(b: array<octet>, p: M.Params, control: octet)
    requires b.Length >= MSG_SIZE && M.ControlField(p.kind) == Some(control)
    modifies b
    ensures b[..] == M.Splice(old(b[..]), 0, M.HeaderOctets(p))
  {
    hide M.HeaderOctets, M.Splice, Put16, Put32, Put64, M.ControlField;
    ghost var s := b[..];
    StoreAt(b, 0, seq(MSG_SIZE, _ => 0));
    ghost var z := b[..];
    StoreFixed(b, p, control);
    ghost var f := b[..];
    StoreVariable(b, p);
    HeaderRest(s, z, f, b[..]);
    HeaderStored(s, b[..], p);
  }

  /** What the stores of the numbers leave: the other octets of the header, its zeros, and what follows it. */
  lemma HeaderRest(s: seq<octet>, z: seq<octet>, f: seq<octet>, r: seq<octet>)
    requires |s| == |z| == |f| == |r| >= MSG_SIZE
    requires forall i :: 0 <= i < |s| ==> z[i] == if i < MSG_SIZE then 0 else s[i]
    requires forall i :: 0 <= i < |s| && i !in {0, 1, 4, 5, 6, 7, 32, 33} ==> f[i] == z[i]
    requires forall i :: 0 <= i < |s| && !(8 <= i < 16 || 30 <= i < 32 || 34 <= i < 44) ==> r[i] == f[i]
    ensures r[2] == r[3] == 0 && r[16..30] == seq(14, _ => 0) && r[MSG_SIZE..] == s[MSG_SIZE..]
  {
    forall i | MSG_SIZE <= i < |s|
      ensures r[i] == s[i]
    {
    }
  }

  /** The octets of the header that are no numbers. */
  method StoreFixed(b: array<octet>, p: M.Params, control: octet)
    requires b.Length >= MSG_SIZE && M.ControlField(p.kind).Some?
    modifies b
    ensures b[0] == p.kind + 0x30 && b[1] == 0x12 && b[4] == p.domainNumber && b[5] == 0
    ensures b[6] == (if p.useTwoSteps then 6 else 4) && b[7] == p.flagField2 && b[32] == control && b[33] == 0x7f
    ensures forall i :: 0 <= i < b.Length && i !in {0, 1, 4, 5, 6, 7, 32, 33} ==> b[i] == old(b[i])
  {
    b[0] := p.kind + 0x30;
    b[1] := 0x12;
    b[4] := p.domainNumber;
    b[5] := 0;
    b[6] := if p.useTwoSteps then 6 else 4;
    b[7] := p.flagField2;
    b[32] := control;
    b[33] := 0x7f;
  }

  /** The numbers of the header, in host order. */
  method StoreVariable(b: array<octet>, p: M.Params)
    requires b.Length >= MSG_SIZE
    modifies b
    ensures b[8..16] == Put64(Bits64(p.correctionField)) && b[30..32] == Put16(p.sequenceId)
    ensures b[34..36] == Put16(p.timestamp.high) && b[36..40] == Put32(p.timestamp.low) && b[40..44] == Put32(p.timestamp.nsec)
    ensures forall i :: 0 <= i < b.Length && !(8 <= i < 16 || 30 <= i < 32 || 34 <= i < 44) ==> b[i] == old(b[i])
  {
    hide Put16, Put32, Put64;
    var c, q, t := Put64(Bits64(p.correctionField)), Put16(p.sequenceId), Put16(p.timestamp.high);
    var l, n := Put32(p.timestamp.low), Put32(p.timestamp.nsec);
    StoreAt(b, 8, c);
    StoreAt(b, 30, q);
    StoreAt(b, 34, t);
    StoreAt(b, 36, l);
    StoreAt(b, 40, n);
    SliceIs(b[..], 8, c);
    SliceIs(b[..], 30, q);
    SliceIs(b[..], 34, t);
    SliceIs(b[..], 36, l);
    SliceIs(b[..], 40, n);
  }

  lemma SliceIs(s: seq<octet>, at: nat, f: seq<octet>)
    requires at + |f| <= |s| && forall i :: at <= i < at + |f| ==> s[i] == f[i - at]
    ensures s[at..at + |f|] == f
  {
  }

  method StoreAt(b: array<octet>, at: nat, s: seq<octet>)
    requires at + |s| <= b.Length
    modifies b
    ensures forall i :: at <= i < at + |s| ==> b[i] == s[i - at]
    ensures forall i :: 0 <= i < b.Length && !(at <= i < at + |s|) ==> b[i] == old(b[i])
  {
    ghost var was := b[..];
    Store(b, at, s);
    assert forall i :: 0 <= i < b.Length ==> b[i] == b[..][i];
    assert forall i :: 0 <= i < b.Length ==> was[i] == old(b[i]);
  }

  /** The REQUEST, field by field. */
  method StoreRequest(b: array<octet>, end: nat, flags: octet)
    requires end + 8 <= b.Length
    modifies b
    ensures b[..] == M.Splice(old(b[..]), end, Put16(CSPTP_REQUEST) + Put16(4) + [flags % 4, 0, 0, 0])
  {
    hide Put16;
    ghost var s := b[..];
    StoreAt(b, end, Put16(CSPTP_REQUEST));
    StoreAt(b, end + 2, Put16(4));
    b[end + 4] := flags % 4;
    b[end + 5] := 0;
    b[end + 6] := 0;
    b[end + 7] := 0;
    SliceIs(b[..], end, Put16(CSPTP_REQUEST));
    SliceIs(b[..], end + 2, Put16(4));
    RequestStored(s, b[..], end, flags);
  }

  lemma HeaderStored(s: seq<octet>, r: seq<octet>, p: M.Params)
    requires |r| == |s| >= MSG_SIZE && M.ControlField(p.kind).Some?
    requires r[0] == p.kind + 0x30 && r[1] == 0x12 && r[2] == 0 && r[3] == 0 && r[4] == p.domainNumber && r[5] == 0
    requires r[6] == (if p.useTwoSteps then 6 else 4) && r[7] == p.flagField2
    requires r[8..16] == Put64(Bits64(p.correctionField)) && r[16..30] == seq(14, _ => 0)
    requires r[30..32] == Put16(p.sequenceId) && r[32] == M.ControlField(p.kind).value && r[33] == 0x7f
    requires r[34..36] == Put16(p.timestamp.high) && r[36..40] == Put32(p.timestamp.low) && r[40..44] == Put32(p.timestamp.nsec)
    requires r[MSG_SIZE..] == s[MSG_SIZE..]
    ensures r == M.Splice(s, 0, M.HeaderOctets(p))
  {
    hide Put16, Put32, Put64;
    var h := M.HeaderOctets(p);
    assert h == r[..8] + r[8..16] + r[16..30] + r[30..32] + r[32..34] + r[34..36] + r[36..40] + r[40..44];
    assert h == r[..MSG_SIZE];
  }

  lemma RequestStored(s: seq<octet>, r: seq<octet>, end: nat, flags: octet)
    requires end + 8 <= |s| == |r| && (forall i :: 0 <= i < |s| && (i < end || end + 8 <= i) ==> r[i] == s[i])
    requires r[end..end + 2] == Put16(CSPTP_REQUEST) && r[end + 2..end + 4] == Put16(4)
    requires r[end + 4] == flags % 4 && r[end + 5] == r[end + 6] == r[end + 7] == 0
    ensures r == M.Splice(s, end, Put16(CSPTP_REQUEST) + Put16(4) + [flags % 4, 0, 0, 0])
  {
    hide Put16;
    var t := Put16(CSPTP_REQUEST) + Put16(4) + [flags % 4, 0, 0, 0];
    assert t == r[end..end + 2] + r[end + 2..end + 4] + r[end + 4..end + 8];
    assert t == r[end..end + 8];
  }

  /** The PAD: type, length, zeros. */
  method StorePad(b: array<octet>, end: nat, pad: nat)
    requires TLV_HDR <= pad <= MAX_MESSAGE && end + pad <= b.Length
    modifies b
    ensures b[..] == M.Splice(old(b[..]), end, M.PadOctets(pad))
  {
    var n := pad - TLV_HDR;
    Store(b, end, [PAD / 0x100, PAD % 0x100]);
    Store(b, end + 2, [n / 0x100, n % 0x100]);
    Store(b, end + 4, seq(n, _ => 0));
  }

  lemma TwoStores(s: seq<octet>, end: nat, id: u16, n: u16)
    requires end + 4 <= |s|
    ensures M.Splice(M.Splice(s, end, Put16(id)), end + 2, Put16(n)) == M.Splice(s, end, Put16(id) + Put16(n))
  {
  }

  /** The type stored before the size is worked out is not what it depends on. */
  lemma FilledUntyped(s: seq<octet>, end: nat, id: u16)
    requires end + MinTlvSize(id) <= |s| && end + 2 <= |s|
    ensures M.FilledSize(id, M.Splice(s, end, Put16(id))[end..]) == M.FilledSize(id, s[end..])
  {
    var u, v := s[end..], M.Splice(s, end, Put16(id))[end..];
    assert forall i :: 2 <= i < |u| ==> v[i] == u[i];
  }

  /** cpu_to_net_msg */
  method CpuToNetMsg(b: array<octet>, len: nat)
    requires b.Length >= MSG_SIZE
    modifies b
    ensures b[..] == SwapHeader(M.Splice(old(b[..]), 2, Put16(len % 0x1_0000)))
  {
    hide Swapped, SwappedTs, HeaderFlip;
    Store(b, 2, Put16(len % 0x1_0000));
    HeaderFields(b[..]);
    SwapField(b, 2, 2);
    SwapField(b, 8, 8);
    SwapField(b, 30, 2);
    SwapTs(b, 34);
  }

  /** net_to_cpu_msg; the result is messageLength. */
  method NetToCpuMsg(b: array<octet>) returns (len: u16)
    requires b.Length >= MSG_SIZE
    modifies b
    ensures b[..] == SwapHeader(old(b[..])) && len == Get16(b[..], 2) == Wire16(old(b[..]), 2)
  {
    hide Swapped, SwappedTs, HeaderFlip;
    HeaderFields(b[..]);
    SwapField(b, 2, 2);
    SwapField(b, 8, 8);
    SwapField(b, 30, 2);
    SwapTs(b, 34);
    len := Load16(b, 2);
  }

  lemma HeaderFields(s: seq<octet>)
    requires |s| >= MSG_SIZE
    ensures SwapHeader(s) == SwappedTs(Swapped(Swapped(Swapped(s, 2, 2), 8, 8), 30, 2), 34)
    ensures Get16(SwapHeader(s), 2) == Wire16(s, 2)
  {
  }
}
