/** One flow of the service, src/main_service.c: a request in, a response and perhaps a Follow_Up out. */
module Service {
  import opened Octets
  import opened Wrappers
  import opened Time
  import opened Wire
  import opened Sizes
  import opened MessageObject
  import opened PtpMessage
  import opened Parts
  import opened Dialogue
  import opened Network
  import M = Message
  import B = Builder
  import P = Parsing

  // What a flow sends, as a function of the datagram.

  /** The parameters of an answer to a message with parameters p, sent at time tx. */
  function AnswerParams(p: M.Params, kind: octet, tx: PtpTime, twoSteps: bool): M.Params {
    p.(kind := kind, timestamp := tx, useTwoSteps := twoSteps)
  }

  /** sendRespSync and sendFollowUp on a received request. */
  function Answers(w: M.Work, p: M.Params, clk: Clock, rx: Timespec, tx: Timespec, flags: octet, size: nat,
                   twoSteps: bool, sent: bool): (ms: seq<seq<octet>>)
    requires |w.octets| <= MAX_MESSAGE && clk.Valid() && p.flagField2 < 0x40
    ensures |ms| <= 2
  {
    match ToPtp(tx)
    case None => []
    case Some(t) =>
      var r := BuildResponse(w, AnswerParams(p, M.SYNC, t, twoSteps), clk, rx, flags, size);
      if r.None? then []
      else
        ResponseIsRead(w, AnswerParams(p, M.SYNC, t, twoSteps), clk, rx, flags, size);
        var first := [Sent(r.value)];
        if !twoSteps || !sent then first
        else
          BuiltLength(w, AnswerParams(p, M.SYNC, t, twoSteps), clk, rx, flags, size);
          var f := BuildPlain(r.value, AnswerParams(p, M.FOLLOW_UP, t, twoSteps), size);
          if !f.0 then first
          else
            PlainIsRead(r.value, AnswerParams(p, M.FOLLOW_UP, t, twoSteps), size);
            first + [Sent(f.1)]
  }

  lemma BuiltLength(w: M.Work, p: M.Params, clk: Clock, rx: Timespec, flags: octet, size: nat)
    requires |w.octets| <= MAX_MESSAGE && clk.Valid() && BuildResponse(w, p, clk, rx, flags, size).Some?
    ensures |BuildResponse(w, p, clk, rx, flags, size).value.octets| == |w.octets|
  {
    hide B.Building, M.Init, RespTlvs, Answering, RespSize, ToPtp, RespParts, Tellable, Holds, B.AddressesMatch;
    B.InitBuilds(w, p);
    InitIs(w, p);
    RespTlvsBuild(M.Init(w, p).1, p, clk, rx, flags);
    var t := RespTlvs(M.Init(w, p).1, p, clk, rx, flags).value;
    AnsweringRoom(t, p, RespParts(clk, ToPtp(rx).value, flags));
    B.BuildDoneSucceeds(t, p, size);
  }

  /** What the service sends for the message at the front of its buffer. */
  function Handle(s: seq<octet>, used: nat, clk: Clock, rx: Timespec, tx: Timespec, twoSteps: bool, sent: bool)
    : (ms: seq<seq<octet>>)
    requires |s| <= MAX_MESSAGE && clk.Valid() && M.ClaimsHeader(s, used)
    ensures |ms| <= 2
  {
    match M.Parse(s, used)
    case Rejected(_) => []
    case Parsed(o, p, msg) =>
      ParsedInside(s, used);
      var flags := RequestFlagsIn(o, msg.tlvs);
      if p.kind != M.SYNC || flags.None? then []
      else
        ParsedHeader(s, used);
        Answers(M.Work(o, used, msg), p, clk, rx, tx, flags.value, used, twoSteps, sent)
  }

  /** The messages one flow sends; sent says whether the first send succeeds. */
  function Serve(d: seq<octet>, stale: seq<octet>, clk: Clock, rx: Timespec, tx: Timespec, twoSteps: bool, sent: bool)
    : (ms: seq<seq<octet>>)
    requires |stale| <= MAX_MESSAGE && clk.Valid() && M.ClaimsHeader(Cut(d, |stale|), |Cut(d, |stale|)|)
    ensures |ms| <= 2
  {
    var m := Cut(d, |stale|);
    ReadsAnywhere(m, stale[|m|..]);
    Handle(Received(d, stale), |m|, clk, rx, tx, twoSteps, sent)
  }

  /** A well-formed message that claims no more than it is. */
  predicate Sound(m: seq<octet>) {
    M.ClaimsHeader(m, |m|) && Reads(m).Read?
  }

  /**
   A Sync response to a request with parameters p and these flags, received at
   rx and answered at tx: what the client reads of it, and its parts.
   */
  predicate RespondsTo(m: seq<octet>, p: M.Params, clk: Clock, rx: Timespec, tx: Timespec, flags: octet, twoSteps: bool) {
    && ToPtp(rx).Some? && ToPtp(tx).Some? && Sound(m)
    && Reads(m).params ==
      M.Params(0, p.domainNumber, p.correctionField, p.sequenceId, p.flagField2, ToPtp(tx).value, twoSteps)
    && Reads(m).ingress == [ToPtp(rx).value]
    && clk.Valid() && Tellable(clk, flags)
    && Carries(m, RespParts(clk, ToPtp(rx).value, flags)) && IsFound(m, RespParts(clk, ToPtp(rx).value, flags))
  }

  predicate FollowsUp(m: seq<octet>, p: M.Params, tx: Timespec) {
    && ToPtp(tx).Some? && Sound(m)
    && Reads(m).flags == None && Reads(m).ingress == []
    && Reads(m).params ==
      M.Params(8, p.domainNumber, p.correctionField, p.sequenceId, p.flagField2, ToPtp(tx).value, true)
  }

  lemma AnswersMeaning(w: M.Work, p: M.Params, clk: Clock, rx: Timespec, tx: Timespec, flags: octet, size: nat,
                       twoSteps: bool, sent: bool)
    requires |w.octets| <= MAX_MESSAGE && clk.Valid() && p.flagField2 < 0x40 && size > 0
    ensures var ms := Answers(w, p, clk, rx, tx, flags, size, twoSteps, sent);
      && (|ms| > 0 ==> RespondsTo(ms[0], p, clk, rx, tx, flags, twoSteps) && |ms[0]| == size)
      && (|ms| > 1 ==> twoSteps && sent && FollowsUp(ms[1], p, tx) && |ms[1]| == size)
  {
    hide BuildResponse, BuildPlain, RespSize, ToPtp, Reads, M.ClaimsHeader, Carries, IsFound, RespParts, Tellable;
    if ToPtp(tx).Some? {
      var t := ToPtp(tx).value;
      var q, f := AnswerParams(p, M.SYNC, t, twoSteps), AnswerParams(p, M.FOLLOW_UP, t, twoSteps);
      if BuildResponse(w, q, clk, rx, flags, size).Some? {
        ResponseIsRead(w, q, clk, rx, flags, size);
        ResponseIsParts(w, q, clk, rx, flags, size);
        BuiltLength(w, q, clk, rx, flags, size);
        var b := BuildResponse(w, q, clk, rx, flags, size).value;
        if BuildPlain(b, f, size).0 {
          PlainIsRead(b, f, size);
        }
      }
    }
  }

  /**
   What a flow sends: nothing, unless the datagram is read as a Sync with a
   REQUEST; then answers of the datagram's own size that carry its
   parameters, the ingress time and the send time, and all that it asks for.
   */
  lemma ServeMeaning(d: seq<octet>, stale: seq<octet>, clk: Clock, rx: Timespec, tx: Timespec, twoSteps: bool, sent: bool)
    requires |stale| <= MAX_MESSAGE && clk.Valid() && M.ClaimsHeader(Cut(d, |stale|), |Cut(d, |stale|)|)
    ensures var m, ms := Cut(d, |stale|), Serve(d, stale, clk, rx, tx, twoSteps, sent);
      && (ms != [] ==> Sound(m) && Reads(m).params.kind == M.SYNC && Reads(m).flags.Some?)
      && (|ms| > 0 ==> RespondsTo(ms[0], Reads(m).params, clk, rx, tx, Reads(m).flags.value, twoSteps) && |ms[0]| == |m|)
      && (|ms| > 1 ==> twoSteps && sent && FollowsUp(ms[1], Reads(m).params, tx) && |ms[1]| == |m|)
  {
    hide M.Parse, Answers, RespondsTo, FollowsUp, Inside, RequestFlagsIn, IngressIn;
    var m := Cut(d, |stale|);
    ReadsAnywhere(m, stale[|m|..]);
    var r := M.Parse(Received(d, stale), |m|);
    if r.Parsed? {
      ParsedHeader(Received(d, stale), |m|);
      P.ParseFrames(Received(d, stale), |m|);
      var flags := RequestFlagsIn(r.octets, r.msg.tlvs);
      if flags.Some? {
        AnswersMeaning(M.Work(r.octets, |m|, r.msg), r.params, clk, rx, tx, flags.value, |m|, twoSteps, sent);
      }
    }
  }

  /** A request whose size leaves room for all it asks for is answered in full. */
  lemma ServeAnswers(d: seq<octet>, stale: seq<octet>, clk: Clock, rx: Timespec, tx: Timespec, twoSteps: bool)
    requires |stale| == 256 && |d| <= 256 && clk.Valid() && Sound(d)
    requires ToPtp(rx).Some? && ToPtp(tx).Some?
    requires Reads(d).params.kind == M.SYNC && Reads(d).flags.Some? && Tellable(clk, Reads(d).flags.value)
    requires |d| % 2 == 0 && MSG_SIZE + RespSize(clk, Reads(d).flags.value) + 8 <= |d|
    ensures M.ClaimsHeader(Cut(d, |stale|), |Cut(d, |stale|)|)
    ensures |Serve(d, stale, clk, rx, tx, twoSteps, true)| == if twoSteps then 2 else 1
  {
    hide M.Parse, Answers, Inside, RequestFlagsIn, IngressIn, RespSize, Tellable, ToPtp, M.ClaimsHeader;
    assert Cut(d, |stale|) == d;
    ReadsAnywhere(d, stale[|d|..]);
    var s := Received(d, stale);
    var r := M.Parse(s, |d|);
    ParsedInside(s, |d|);
    ParsedHeader(s, |d|);
    AnswersAll(M.Work(r.octets, |d|, r.msg), r.params, clk, rx, tx, Reads(d).flags.value, |d|, twoSteps);
  }

  lemma AnswersAll(w: M.Work, p: M.Params, clk: Clock, rx: Timespec, tx: Timespec, flags: octet, size: nat, twoSteps: bool)
    requires |w.octets| == SERVICE_BUFFER && clk.Valid() && p.flagField2 < 0x40
    requires ToPtp(rx).Some? && ToPtp(tx).Some? && Tellable(clk, flags)
    requires size % 2 == 0 && MSG_SIZE + RespSize(clk, flags) + 8 <= size <= SERVICE_BUFFER
    ensures |Answers(w, p, clk, rx, tx, flags, size, twoSteps, true)| == if twoSteps then 2 else 1
  {
    hide BuildResponse, BuildPlain, ToPtp, Reads, Tellable;
    var t := ToPtp(tx).value;
    var q, f := AnswerParams(p, M.SYNC, t, twoSteps), AnswerParams(p, M.FOLLOW_UP, t, twoSteps);
    ResponseBuilds(w, q, clk, rx, flags, size);
    BuiltLength(w, q, clk, rx, flags, size);
    PlainBuilds(BuildResponse(w, q, clk, rx, flags, size).value, f, size);
  }

  /** A TLV was not added: at most octets after the end of the message changed. */
  predicate Unrecorded(w: M.Work, r: M.Work) {
    && r.msg == w.msg && r.used == w.used && |r.octets| == |w.octets|
    && forall i :: 0 <= i < |w.octets| && (w.msg.Msg? ==> i < w.msg.end) ==> r.octets[i] == w.octets[i]
  }

  class ServiceState {
    const buf: Buffer
    const msg: PtpMsg
    const rxTs: Timestamp
    const t2: Timestamp
    const clk: Clock
    var params: M.Params
    var address: Address

    ghost predicate Valid()
      reads this, buf, msg, rxTs, t2
    {
      && buf.Valid() && (msg.buf == null || msg.buf == buf) && msg.Valid()
      && rxTs != t2 && rxTs.Valid() && t2.Valid() && clk.Valid()
    }

    /** service_main_allocObjs */
    constructor (clk: Clock, p: M.Params)
      requires clk.Valid()
      ensures Valid() && buf.data.Length == 256 && this.clk == clk
      ensures fresh(buf) && fresh(buf.data) && fresh(msg) && fresh(rxTs) && fresh(t2)
    {
      msg := new PtpMsg();
      rxTs := new Timestamp();
      t2 := new Timestamp();
      buf := new Buffer(SERVICE_BUFFER);
      this.clk, params, address := clk, p, [];
    }

    ghost function Work(): M.Work
      reads this, buf, buf.data, msg
    {
      M.Work(buf.data[..], buf.len, msg.State())
    }

    /** rcvReqSync: the flags of the last REQUEST. */
    method RcvReqSync() returns (flags: Option<octet>)
      requires Valid() && Inside(buf.data[..], msg.tlvs)
      ensures flags == RequestFlagsIn(buf.data[..], msg.tlvs)
    {
      flags := None;
      ghost var s, tlvs := buf.data[..], msg.tlvs;
      for i := 0 to |msg.tlvs|
        invariant flags == RequestFlagsIn(s, tlvs[..i])
      {
        assert tlvs[..i + 1][..i] == tlvs[..i];
        var t := msg.tlvs[i];
        if t.id == CSPTP_REQUEST {
          flags := Some(buf.data[t.at + 4]);
        }
      }
      assert tlvs[..|tlvs|] == tlvs;
    }

    /** nextTlv, the stores of the TLV's fields, addTlv. */
    method AddFilled(need: nat, id: u16, body: seq<octet>) returns (ok: bool)
      requires Valid() && msg.buf == buf && M.Ready(Work()) && TLV_HDR + |body| <= need
      modifies msg, buf, buf.data
      ensures Valid() && msg.buf == buf
      ensures var r := AddBody(old(Work()), need, id, body);
        ok == r.Some? && (ok ==> Work() == r.value)
      ensures !ok ==> Unrecorded(old(Work()), Work())
    {
      hide M.Tiled, M.TlvsFit, NameFits, M.AddTlv;
      var at := msg.NextTlv(need);
      if at.None? {
        return false;
      }
      FilledReady(Work(), body);
      B.AddTlvIs(FillBody(Work(), body), id);
      Store(buf.data, at.value + TLV_HDR, body);
      ok := msg.AddTlv(id);
    }

    /** addRespTlv and addTlv */
    method AddRespTlv() returns (ok: bool)
      requires Valid() && msg.buf == buf && M.Ready(Work())
      modifies msg, buf, buf.data
      ensures Valid() && msg.buf == buf
      ensures var r := AddResp(old(Work()), clk, rxTs.ts);
        ok == r.Some? && (ok ==> Work() == r.value)
      ensures !ok ==> Unrecorded(old(Work()), Work())
    {
      hide AddBody, RespBody, M.Ready;
      var t := rxTs.ToTimestamp();
      if t.None? {
        return false;
      }
      ok := AddFilled(TlvSize(CSPTP_RESPONSE), CSPTP_RESPONSE, RespBody(clk, t.value));
    }

    method AddStatusTlv() returns (ok: bool)
      requires Valid() && msg.buf == buf && M.Ready(Work())
      modifies msg, buf, buf.data
      ensures Valid() && msg.buf == buf
      ensures var r := AddStatus(old(Work()), clk);
        ok == r.Some? && (ok ==> Work() == r.value)
      ensures !ok ==> Unrecorded(old(Work()), Work())
    {
      hide AddBody, StatusBody, M.Ready;
      if AddressSize(clk.protocol) == 0 {
        return false;
      }
      ok := AddFilled(StatusTlvSize(clk.protocol), CSPTP_STATUS, StatusBody(clk));
    }

    method AddAltTimeTlv() returns (ok: bool)
      requires Valid() && msg.buf == buf && M.Ready(Work())
      modifies msg, buf, buf.data
      ensures Valid() && msg.buf == buf
      ensures var r := AddAlt(old(Work()), clk);
        ok == r.Some? && (ok ==> Work() == r.value)
      ensures !ok ==> Unrecorded(old(Work()), Work())
    {
      hide AddBody, AltBody, M.Ready;
      if clk.nextJump > UINT48_MAX || |clk.zone| > MAX_TZ_LEN {
        return false;
      }
      ok := AddFilled(TlvSize(ALT_TIME), ALT_TIME, AltBody(clk));
    }

    /** addRespTlv, and the TLVs the request asked for. */
    method AddTlvs(flags: octet) returns (ok: bool)
      requires Valid() && msg.buf == buf && B.Building(Work(), params) && msg.tlvs == []
      modifies msg, buf, buf.data
      ensures Valid() && msg.buf == buf
      ensures var r := RespTlvs(old(Work()), params, clk, rxTs.ts, flags);
        ok == r.Some? && (ok ==> Work() == r.value)
    {
      hide B.Building, Answering, AddResp, AddStatus, AddAlt, M.Ready, ToPtp, Holds, RespPart, StatusPart, AltPart, B.HasRoom,
        StatusTlvSize, MakeEven;
      ghost var p, w := params, Work();
      BuildingFacts(w, p);
      AddRespAnswers(w, p, clk, rxTs.ts);
      ok := AddRespTlv();
      if !ok {
        return;
      }
      ghost var parts := [RespPart(clk, ToPtp(rxTs.ts).value)];
      AnsweringRoom(Work(), p, parts);
      AddStatusAnswers(Work(), p, clk, parts);
      if flags % 2 != 0 {
        ok := AddStatusTlv();
        if !ok {
          return;
        }
        AnsweringRoom(Work(), p, parts + [StatusPart(clk)]);
      }
      if flags / 2 % 2 != 0 {
        ok := AddAltTimeTlv();
      }
    }

    /** sendRespSync up to the send. */
    method BuildRespSync(size: nat, flags: octet, tx: Timespec) returns (ok: bool)
      requires Valid() && tx.Normal()
      modifies this`params, t2, msg, buf, buf.data
      ensures Valid() && t2.ts == tx
      ensures ok ==> msg.buf == buf
      ensures ToPtp(tx).Some? ==> params == old(params).(kind := M.SYNC, timestamp := ToPtp(tx).value)
      ensures ok <==> ToPtp(tx).Some? && BuildResponse(old(Work()), params, clk, rxTs.ts, flags, size).Some?
      ensures ok ==> Work() == BuildResponse(old(Work()), params, clk, rxTs.ts, flags, size).value
    {
      hide B.Building, M.Init, RespTlvs, M.BuildDone, Answering, ToPtp, RespSize, M.Ready, RespParts, Tellable, Holds;
      ghost var w := Work();
      params := params.(kind := M.SYNC);
      t2.FromTimespec(tx);
      var t := t2.ToTimestamp();
      if t.None? {
        return false;
      }
      params := params.(timestamp := t.value);
      B.InitBuilds(w, params);
      ok := msg.Init(params, buf);
      if !ok {
        return;
      }
      InitIs(w, params);
      RespTlvsBuild(Work(), params, clk, rxTs.ts, flags);
      ok := AddTlvs(flags);
      if !ok {
        return;
      }
      AnsweringRoom(Work(), params, RespParts(clk, ToPtp(rxTs.ts).value, flags));
      ok := msg.BuildDone(size);
    }

    /** sendFollowUp up to the send. */
    method BuildFollowUp(size: nat) returns (ok: bool)
      requires Valid()
      modifies this`params, msg, buf, buf.data
      ensures Valid()
      ensures ok ==> msg.buf == buf && ToPtp(t2.ts).Some? && params == old(params).(kind := M.FOLLOW_UP, timestamp := ToPtp(t2.ts).value)
      ensures ToPtp(t2.ts).Some? ==>
        params == old(params).(kind := M.FOLLOW_UP, timestamp := ToPtp(t2.ts).value)
        && ok == BuildPlain(old(Work()), params, size).0
        && (ok ==> Work() == BuildPlain(old(Work()), params, size).1)
    {
      hide B.Building, M.Init, M.BuildDone, ToPtp;
      ghost var w := Work();
      params := params.(kind := M.FOLLOW_UP);
      var t := t2.ToTimestamp();
      if t.None? {
        return false;
      }
      params := params.(timestamp := t.value);
      B.InitBuilds(w, params);
      ok := msg.Init(params, buf);
      if !ok {
        return;
      }
      InitIs(w, params);
      ok := msg.BuildDone(size);
    }

    /** sendRespSync and, in two steps, sendFollowUp; sent1 and sent2 say whether the sends succeed. */
    method SendAnswers(size: nat, flags: octet, tx: Timespec, twoSteps: bool, sent1: bool, sent2: bool)
      returns (ok: bool, ms: seq<seq<octet>>)
      requires Valid() && msg.buf == buf && tx.Normal() && params.flagField2 < 0x40 && size > 0
      requires params.useTwoSteps == twoSteps
      modifies this`params, t2, msg, buf, buf.data
      ensures Valid()
      ensures ms == Answers(old(Work()), old(params), clk, rxTs.ts, tx, flags, size, twoSteps, sent1)
      ensures ok == (|ms| == (if twoSteps then 2 else 1) && sent1 && (twoSteps ==> sent2))
    {
      hide BuildResponse, BuildPlain, ToPtp, RespSize, Reads, B.Building;
      ms := [];
      ghost var w, p := Work(), params;
      ok := BuildRespSync(size, flags, tx);
      if !ok {
        return;
      }
      ghost var q := AnswerParams(p, M.SYNC, ToPtp(tx).value, twoSteps);
      ResponseIsRead(w, q, clk, rxTs.ts, flags, size);
      BuiltLength(w, q, clk, rxTs.ts, flags, size);
      ms := [buf.data[..buf.len]];
      assert ms[0] == Sent(Work());
      ok := sent1;
      if !ok || !twoSteps {
        return;
      }
      ghost var w1 := Work();
      ok := BuildFollowUp(size);
      if !ok {
        return;
      }
      PlainIsRead(w1, AnswerParams(p, M.FOLLOW_UP, ToPtp(tx).value, twoSteps), size);
      ms := ms + [buf.data[..buf.len]];
      assert ms[1] == Sent(Work());
      ok := sent2;
    }

    /** What main_flow does with the message it received. */
    method HandleMessage(tx: Timespec, twoSteps: bool, sent1: bool, sent2: bool) returns (ok: bool, ms: seq<seq<octet>>)
      requires Valid() && tx.Normal() && M.ClaimsHeader(buf.data[..], buf.len)
      modifies this`params, t2, msg, buf, buf.data
      ensures Valid()
      ensures ms == Handle(old(buf.data[..]), old(buf.len), clk, rxTs.ts, tx, twoSteps, sent1)
      ensures ok == (|ms| == (if twoSteps then 2 else 1) && sent1 && (twoSteps ==> sent2))
    {
      hide Answers, M.Parse, RequestFlagsIn, M.ClaimsHeader, Inside, ToPtp, M.Ready;
      ok, ms := false, [];
      ghost var s := buf.data[..];
      ParsedInside(s, buf.len);
      var p := msg.Parse(buf);
      if p.None? {
        return;
      }
      ParsedHeader(s, buf.len);
      ParsedSize(s, buf.len);
      params := p.value;
      if params.kind == M.SYNC {
        params := params.(useTwoSteps := twoSteps);
        var flags := RcvReqSync();
        if flags.Some? {
          AnswersIgnoreSteps(Work(), p.value, clk, rxTs.ts, tx, flags.value, buf.len, twoSteps, sent1);
          ok, ms := SendAnswers(buf.len, flags.value, tx, twoSteps, sent1, sent2);
        }
      }
    }

    /**
     main_flow: one poll.  tx is what the clock shows when the response is
     made; the messages go to the address the datagram came from.
     */
    method MainFlow(ev: Poll, tx: Timespec, twoSteps: bool, sent1: bool, sent2: bool)
      returns (ok: bool, ms: seq<seq<octet>>)
      requires Valid() && tx.Normal()
      requires ev.Datagram? ==>
        ev.rx.Normal() && var m := Cut(ev.octets, buf.data.Length); M.ClaimsHeader(m, |m|)
      modifies this, rxTs, t2, msg, buf, buf.data
      ensures Valid()
      ensures ms == if !ev.Datagram? then [] else
        Serve(ev.octets, old(buf.data[..]), clk, ev.rx, tx, twoSteps, sent1)
      ensures ev.Datagram? ==> address == ev.from
      ensures ok == (|ms| == (if twoSteps then 2 else 1) && sent1 && (twoSteps ==> sent2))
    {
      hide Handle, M.ClaimsHeader, Reads;
      ok, ms := false, [];
      if !ev.Datagram? {
        return;
      }
      ghost var stale := buf.data[..];
      ghost var m := Cut(ev.octets, buf.data.Length);
      ReadsAnywhere(m, stale[|m|..]);
      address := ev.from;
      rxTs.FromTimespec(ev.rx);
      var received := Receive(buf, ev.octets);
      if !received {
        NothingServed(ev.octets, stale, clk, ev.rx, tx, twoSteps, sent1);
        return;
      }
      ok, ms := HandleMessage(tx, twoSteps, sent1, sent2);
    }
  }

  lemma AnswersIgnoreSteps(w: M.Work, p: M.Params, clk: Clock, rx: Timespec, tx: Timespec, flags: octet, size: nat,
                           twoSteps: bool, sent: bool)
    requires |w.octets| <= MAX_MESSAGE && clk.Valid() && p.flagField2 < 0x40
    ensures Answers(w, p.(useTwoSteps := twoSteps), clk, rx, tx, flags, size, twoSteps, sent)
      == Answers(w, p, clk, rx, tx, flags, size, twoSteps, sent)
  {
    hide BuildResponse, BuildPlain, ToPtp, Reads, RespSize;
  }

  lemma ParsedSize(s: seq<octet>, used: nat)
    requires M.ClaimsHeader(s, used) && M.Parse(s, used).Parsed?
    ensures used > 0
  {
  }

  lemma NothingServed(d: seq<octet>, stale: seq<octet>, clk: Clock, rx: Timespec, tx: Timespec, twoSteps: bool, sent: bool)
    requires |stale| <= MAX_MESSAGE && clk.Valid() && M.ClaimsHeader(Cut(d, |stale|), |Cut(d, |stale|)|)
    requires Cut(d, |stale|) == []
    ensures Serve(d, stale, clk, rx, tx, twoSteps, sent) == []
  {
  }
}
