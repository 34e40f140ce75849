/**
 A client and a service on a network that loses, delays and reorders
 messages but does not duplicate them.  Whatever happens and whichever sends
 fail, an attempt that succeeds has the four times of its own request, if no
 message in flight bears the sequenceId it is begun with.
 */
module Exchange {
  import opened Octets
  import opened Wrappers
  import opened Time
  import opened Wire
  import opened Sizes
  import opened Parts
  import opened Dialogue
  import opened Network
  import M = Message
  import C = Client
  import S = Service

  /** The two configurations. */
  datatype Config = Config(
    status: bool, altTime: bool, family: u16, domain: octet, requestTwoSteps: bool,
    service: Address, clk: Clock, responseTwoSteps: bool)
  {
    predicate Valid() {
      && (family == UDP_IPV4 || family == UDP_IPV6)
      && clk.Valid()
    }

    function Size(): nat {
      ClientSize(status, altTime, family)
    }

    function Flags(): octet {
      RequestFlags(status, altTime)
    }

    function Params(): M.Params {
      M.Params(0, domain, 0, 0, 0, PtpTime(0, 0, 0), requestTwoSteps)
    }
  }

  /** A client of this configuration starts with its parameters, flags and size. */
  method NewClient(g: Config) returns (c: C.ClientState)
    requires g.Valid()
    ensures c.Valid() && c.size == c.buf.data.Length == g.Size()
    ensures c.params == g.Params() && c.tlvReqFlags0 == g.Flags() && c.address == g.service
  {
    hide ClientSize;
    c := new C.ClientState(g.status, g.altTime, g.family, g.domain, g.requestTwoSteps, g.service);
  }

  /** A message on its way, the attempt it belongs to, and how many sequenceIds were used up before that. */
  datatype Packet = Packet(attempt: nat, cycle: nat, data: seq<octet>)

  /** When the service received an attempt's request, and sent its response. */
  datatype Served = Served(rx: Timespec, tx: Timespec)

  /**
   The client: its attempts so far, the sequenceIds it used up, its
   sequenceId, whether it polls, t1, the flow's variables when it began to
   poll and now, and what the polls brought.  The network: the messages on
   their way to the service and to the client.  And what happened to each
   attempt: when its request was made, when the service had it, and when the
   client got the response.
   */
  datatype World = World(
    attempt: nat, cycle: nat, seqId: u16, running: bool, t1: Timespec, start: C.Wait, wait: C.Wait, polls: seq<Poll>,
    up: map<nat, Packet>, down: map<nat, Packet>, next: nat,
    began: map<nat, Timespec>, served: map<nat, Served>, heard: map<nat, Timespec>)

  /** The sequenceId after so many were used up. */
  function Id(cycle: nat): u16 {
    cycle % 0xffff + 1
  }

  datatype Action =
    | Begin(work: M.Work, now: Timespec, sent1: bool, sent2: bool) // the client makes its request; which sends succeed
    | Lose(id: nat)
    | Serve(id: nat, stale: seq<octet>, rx: Timespec, tx: Timespec) // the service gets a message
    | Hear(id: nat, rx: Timespec) // the client gets a message
    | Other(ev: Poll) // a poll brings nothing, or something from elsewhere
    | Finish

  function Cycle(g: Config, w: World): C.Cycle {
    C.Cycle(w.seqId, g.domain, g.service, g.Size())
  }

  predicate Enabled(g: Config, w: World, a: Action)
    requires g.Valid()
  {
    match a
    case Begin(work, now, _, _) => !w.running && |work.octets| == g.Size() && now.Normal()
    case Lose(id) => true
    case Serve(id, stale, rx, tx) => id in w.up && |stale| == SERVICE_BUFFER && rx.Normal() && tx.Normal()
    case Hear(id, rx) => w.running && !w.wait.Over() && id in w.down && rx.Normal()
    case Other(ev) => w.running && !w.wait.Over() && C.Receivable(ev, g.Size()) && (ev.Datagram? ==> ev.from != g.service)
    case Finish => w.running && w.wait.Over()
  }

  /** The messages of an attempt join the network, in order. */
  function Join(net: map<nat, Packet>, next: nat, attempt: nat, cycle: nat, ms: seq<seq<octet>>): map<nat, Packet> {
    if ms == [] then net
    else Join(net, next, attempt, cycle, ms[..|ms| - 1])[next + |ms| - 1 := Packet(attempt, cycle, ms[|ms| - 1])]
  }

  /** The messages the client tries to send. */
  function Asks(g: Config, w: World, work: M.Work, now: Timespec, sent1: bool): (ms: seq<seq<octet>>)
    requires g.Valid() && |work.octets| == g.Size()
    ensures |ms| <= 2
  {
    ClientSizeFits(g);
    C.Requests(work, g.Params(), g.Flags(), g.Size(), w.seqId, now, g.requestTwoSteps, sent1)
  }

  lemma ClientSizeFits(g: Config)
    requires g.Valid()
    ensures MSG_SIZE + 36 <= g.Size() <= 176 && g.Size() % 2 == 0
  {
    C.ClientSizeFits(g.status, g.altTime, g.family);
    ClientSizes(g.status, g.altTime, g.family);
  }

  /** All of the request was sent, so the client goes on to poll. */
  predicate Polls(g: Config, ms: seq<seq<octet>>, sent1: bool, sent2: bool) {
    |ms| == (if g.requestTwoSteps then 2 else 1) && sent1 && (g.requestTwoSteps ==> sent2)
  }

  /** The messages whose sends succeed. */
  function Sends(ms: seq<seq<octet>>, sent1: bool, sent2: bool): (out: seq<seq<octet>>)
    ensures |out| <= |ms|
  {
    if !sent1 then []
    else if |ms| > 1 && !sent2 then ms[..1]
    else ms
  }

  /** The network has the first message if its send succeeds, and the second if both do. */
  lemma SendsAre(ms: seq<seq<octet>>, sent1: bool, sent2: bool)
    requires |ms| <= 2
    ensures |Sends(ms, sent1, sent2)| > 0 <==> |ms| > 0 && sent1
    ensures |Sends(ms, sent1, sent2)| > 1 <==> |ms| > 1 && sent1 && sent2
    ensures Sends(ms, sent1, sent2) <= ms
  {
  }

  /** At any time any message can get lost; any request on its way can arrive, and while the client polls, any answer. */
  lemma NetworkIsFree(g: Config, w: World, id: nat, stale: seq<octet>, rx: Timespec, tx: Timespec)
    requires g.Valid() && |stale| == 256 && rx.Normal() && tx.Normal()
    ensures Enabled(g, w, Lose(id))
    ensures id in w.up ==> Enabled(g, w, Serve(id, stale, rx, tx))
    ensures id in w.down && w.running && !w.wait.Over() ==> Enabled(g, w, Hear(id, rx))
    ensures w.running && !w.wait.Over() ==> Enabled(g, w, Other(Timeout)) && Enabled(g, w, Other(Failed))
  {
  }

  /** An attempt that goes on to poll has its 50 loops, waits for all, and has the times the client had; t1 is its own. */
  lemma BeginsAnew(g: Config, w: World, work: M.Work, now: Timespec, sent1: bool, sent2: bool)
    requires g.Valid() && AllParsable(g, w) && Enabled(g, w, Begin(work, now, sent1, sent2))
    ensures var v := Act(g, w, Begin(work, now, sent1, sent2));
      && v.t1 == now && v.seqId == w.seqId
      && (v.running ==>
            && v.wait == C.Wait(50, true, true, false, 0, w.wait.r1, w.wait.t2, w.wait.r2)
            && v.start == v.wait && v.polls == [] && v.attempt == w.attempt)
      && (!v.running ==> v.wait == w.wait && v.attempt == w.attempt + 1)
  {
    hide Asks, Join, Sends, Polls, C.Receivable;
  }

  /** A message that is lost is on its way no more, and nothing else changes. */
  lemma LoseLoses(g: Config, w: World, id: nat)
    requires g.Valid() && AllParsable(g, w)
    ensures Act(g, w, Lose(id)) == w.(up := w.up - {id}, down := w.down - {id})
  {
  }

  /** Every message on the network is one that parse takes. */
  predicate Parsable(g: Config, p: Packet) {
    |p.data| == g.Size() && M.ClaimsHeader(p.data, |p.data|)
  }

  predicate AllParsable(g: Config, w: World) {
    && (forall i :: i in w.up ==> Parsable(g, w.up[i]))
    && (forall i :: i in w.down ==> Parsable(g, w.down[i]))
  }

  /** A poll of the client. */
  function Polled(g: Config, w: World, ev: Poll): World
    requires C.Receivable(ev, g.Size())
  {
    w.(wait := C.Next(w.wait, C.Hear(Cycle(g, w), ev)), polls := w.polls + [ev])
  }

  function Act(g: Config, w: World, a: Action): World
    requires g.Valid() && Enabled(g, w, a) && AllParsable(g, w)
  {
    ClientSizeFits(g);
    match a
    case Begin(work, now, sent1, sent2) =>
      var ms := Asks(g, w, work, now, sent1);
      var out := Sends(ms, sent1, sent2);
      var v := w.(
        t1 := now, began := w.began[w.attempt := now],
        up := Join(w.up, w.next, w.attempt, w.cycle, out), next := w.next + |out|);
      if Polls(g, ms, sent1, sent2) then
        var s := C.Start(w.wait.r1, w.wait.t2, w.wait.r2);
        v.(running := true, start := s, wait := s, polls := [])
      else v.(attempt := w.attempt + 1)
    case Lose(id) => w.(up := w.up - {id}, down := w.down - {id})
    case Serve(id, stale, rx, tx) =>
      var p := w.up[id];
      var ms := S.Serve(p.data, stale, g.clk, rx, tx, g.responseTwoSteps, true);
      w.(up := w.up - {id}, down := Join(w.down, w.next, p.attempt, p.cycle, ms), next := w.next + |ms|,
         served := if ms == [] then w.served else w.served[p.attempt := Served(rx, tx)])
    case Hear(id, rx) =>
      var p := w.down[id];
      Polled(g, w, Datagram(p.data, g.service, rx)).(
        down := w.down - {id},
        heard := if IsSync(p) then w.heard[p.attempt := rx] else w.heard)
    case Other(ev) => Polled(g, w, ev)
    case Finish =>
      w.(running := false, attempt := w.attempt + 1,
         cycle := if w.wait.failed then w.cycle else w.cycle + 1,
         seqId := if w.wait.failed then w.seqId else C.NextId(w.seqId))
  }

  /** The message reads as a Sync. */
  predicate IsSync(p: Packet) {
    S.Sound(p.data) && Reads(p.data).params.kind == M.SYNC
  }

  // What every step keeps, whatever is sent, lost and delayed.

  predicate Request(g: Config, p: Packet) {
    && Parsable(g, p) && Reads(p.data).Read?
    && var r := Reads(p.data);
      && r.params.sequenceId == Id(p.cycle) && r.params.domainNumber == g.domain
      && (r.params.kind == M.SYNC ==> r.flags == Some(g.Flags()))
  }

  predicate Answer(g: Config, p: Packet, s: Served) {
    && Parsable(g, p) && Reads(p.data).Read? && ToPtp(s.rx).Some? && ToPtp(s.tx).Some?
    && var r := Reads(p.data);
      && r.params.sequenceId == Id(p.cycle) && r.params.domainNumber == g.domain
      && r.params.timestamp == ToPtp(s.tx).value && r.params.useTwoSteps == g.responseTwoSteps
      && (r.params.kind == M.SYNC ==> r.ingress == [ToPtp(s.rx).value])
      && (r.params.kind != M.SYNC ==> g.responseTwoSteps)
  }

  /** An attempt that has been made. */
  predicate Made(w: World, attempt: nat) {
    attempt < w.attempt || (w.running && attempt == w.attempt)
  }

  predicate UpOk(g: Config, w: World) {
    && (forall i :: i in w.up ==> i < w.next && Made(w, w.up[i].attempt) && Request(g, w.up[i]))
    && (forall i :: i in w.up && IsSync(w.up[i]) ==> w.up[i].attempt !in w.served)
    && (forall i, j :: i in w.up && j in w.up && i != j && IsSync(w.up[i]) && IsSync(w.up[j]) ==>
          w.up[i].attempt != w.up[j].attempt)
  }

  predicate DownOk(g: Config, w: World) {
    && (forall i :: i in w.down ==>
          i < w.next && w.down[i].attempt in w.served && Answer(g, w.down[i], w.served[w.down[i].attempt]))
    && (forall a :: a in w.served ==> Made(w, a))
  }

  /** The client's variables are those of its flow on the polls so far, and it has not met a Sync without a RESPONSE. */
  predicate FlowOk(g: Config, w: World) {
    w.running ==>
      && !w.wait.failed
      && w.start == C.Start(w.start.r1, w.start.t2, w.start.r2)
      && C.Trace(w.polls, g.Size())
      && var hs := C.HeardIn(Cycle(g, w), w.polls, |w.polls|);
        w.wait == C.After(w.start, hs) && C.Goes(w.start, hs)
  }

  predicate Inv(g: Config, w: World) {
    w.seqId == Id(w.cycle) && UpOk(g, w) && DownOk(g, w) && FlowOk(g, w)
  }

  // What holds of attempts that are begun with a fresh sequenceId.

  /** No request that may still be answered, and no answer, bears the sequenceId the client is about to use. */
  predicate Fresh(w: World) {
    && (forall i :: i in w.up && IsSync(w.up[i]) ==> Id(w.up[i].cycle) != w.seqId)
    && (forall i :: i in w.down ==> Id(w.down[i].cycle) != w.seqId)
  }

  /** While the client polls, what bears its sequenceId is of its own attempt, and the times it has are its own. */
  predicate OwnOk(w: World) {
    w.running ==>
      && (forall i :: i in w.up && IsSync(w.up[i]) ==> (Id(w.up[i].cycle) == w.seqId <==> w.up[i].attempt == w.attempt))
      && (forall i :: i in w.down ==> (Id(w.down[i].cycle) == w.seqId <==> w.down[i].attempt == w.attempt))
      && (w.attempt in w.began && w.t1 == w.began[w.attempt])
      && (!w.wait.sync ==>
            && w.attempt in w.served && w.wait.r1 == w.served[w.attempt].rx
            && w.attempt in w.heard && w.wait.r2 == w.heard[w.attempt])
      && (!w.wait.time ==> w.attempt in w.served && w.wait.t2 == w.served[w.attempt].tx)
  }

  /** The client goes on to poll after a. */
  predicate Starts(g: Config, w: World, a: Action)
    requires g.Valid() && Enabled(g, w, a)
  {
    a.Begin? && Polls(g, Asks(g, w, a.work, a.now, a.sent1), a.sent1, a.sent2)
  }

  /** Part of a request is sent, but not all: the client gives up and keeps its sequenceId. */
  predicate HalfSent(g: Config, w: World, a: Action)
    requires g.Valid() && Enabled(g, w, a)
  {
    a.Begin? && !Starts(g, w, a) && Sends(Asks(g, w, a.work, a.now, a.sent1), a.sent1, a.sent2) != []
  }

  /** What the client is done with is of its own request: the four times. */
  predicate Own(w: World) {
    w.running && w.wait.Done() ==>
      && w.attempt in w.began && w.attempt in w.served && w.attempt in w.heard
      && w.t1 == w.began[w.attempt] && w.wait.r1 == w.served[w.attempt].rx
      && w.wait.t2 == w.served[w.attempt].tx && w.wait.r2 == w.heard[w.attempt]
  }

  lemma InvParsable(g: Config, w: World)
    requires Inv(g, w)
    ensures AllParsable(g, w)
  {
    hide Parsable, Id, IsSync, FlowOk;
  }

  /** Messages that join get new ids. */
  lemma {:induction false} Joined(net: map<nat, Packet>, next: nat, attempt: nat, cycle: nat, ms: seq<seq<octet>>)
    requires forall i :: i in net ==> i < next
    ensures var r := Join(net, next, attempt, cycle, ms);
      && (forall i :: i in r <==> i in net || next <= i < next + |ms|)
      && (forall i :: i in net ==> r[i] == net[i])
      && (forall i :: next <= i < next + |ms| ==> r[i] == Packet(attempt, cycle, ms[i - next]))
  {
    if ms != [] {
      Joined(net, next, attempt, cycle, ms[..|ms| - 1]);
    }
  }

  // Begin.

  lemma AskMessages(g: Config, w: World, work: M.Work, now: Timespec, sent1: bool)
    requires g.Valid() && |work.octets| == g.Size() && w.seqId == Id(w.cycle)
    ensures var ms := Asks(g, w, work, now, sent1);
      && (|ms| > 0 ==> Request(g, Packet(w.attempt, w.cycle, ms[0])) && IsSync(Packet(w.attempt, w.cycle, ms[0])))
      && (|ms| > 1 ==>
            sent1 && Request(g, Packet(w.attempt, w.cycle, ms[1])) && !IsSync(Packet(w.attempt, w.cycle, ms[1])))
  {
    hide Reads, M.ClaimsHeader, C.Requests, ToPtp, Id;
    ClientSizeFits(g);
    FlagsFit(g);
    C.RequestsMeaning(work, g.Params(), g.Flags(), g.Size(), w.seqId, now, g.requestTwoSteps, sent1);
  }

  lemma FlagsFit(g: Config)
    ensures g.Flags() % 4 == g.Flags()
  {
  }

  /** What Begin sends joins the uplink. */
  predicate Sent(w: World, out: seq<seq<octet>>, v: World) {
    && v.up == Join(w.up, w.next, w.attempt, w.cycle, out) && v.next == w.next + |out|
    && v.down == w.down && v.served == w.served && v.heard == w.heard && v.began == w.began[w.attempt := v.t1]
    && v.cycle == w.cycle && v.seqId == w.seqId
    && (if v.running then v.attempt == w.attempt else v.attempt == w.attempt + 1)
  }

  lemma SentUp(g: Config, w: World, out: seq<seq<octet>>, v: World)
    requires UpOk(g, w) && DownOk(g, w) && !w.running && |out| <= 2 && Sent(w, out, v)
    requires |out| > 0 ==> Request(g, Packet(w.attempt, w.cycle, out[0])) && IsSync(Packet(w.attempt, w.cycle, out[0]))
    requires |out| > 1 ==> Request(g, Packet(w.attempt, w.cycle, out[1])) && !IsSync(Packet(w.attempt, w.cycle, out[1]))
    ensures UpOk(g, v) && DownOk(g, v)
  {
    hide Request, IsSync, Answer, Join;
    Joined(w.up, w.next, w.attempt, w.cycle, out);
    forall i | i in v.up
      ensures (i in w.up && v.up[i] == w.up[i])
        || (|out| > 0 && i == w.next && v.up[i] == Packet(w.attempt, w.cycle, out[0]))
        || (|out| > 1 && i == w.next + 1 && v.up[i] == Packet(w.attempt, w.cycle, out[1]))
    {
    }
  }

  lemma SentOwn(w: World, out: seq<seq<octet>>, v: World)
    requires !w.running && Sent(w, out, v) && v.running && Fresh(w) && w.seqId == Id(w.cycle)
    requires (forall i :: i in w.up ==> i < w.next && w.up[i].attempt < w.attempt)
    requires (forall i :: i in w.down ==> w.down[i].attempt < w.attempt) && v.wait == C.Start(v.wait.r1, v.wait.t2, v.wait.r2)
    ensures OwnOk(v)
  {
    hide IsSync, Join, Id;
    Joined(w.up, w.next, w.attempt, w.cycle, out);
  }

  lemma BeginKeeps(g: Config, w: World, a: Action)
    requires g.Valid() && Inv(g, w) && AllParsable(g, w) && Enabled(g, w, a) && a.Begin?
    ensures Inv(g, Act(g, w, a))
    ensures (Starts(g, w, a) ==> Fresh(w)) ==> OwnOk(Act(g, w, a))
  {
    hide Asks, UpOk, DownOk, Id, Join, ToPtp, IsSync, Request, Fresh;
    var Begin(work, now, sent1, sent2) := a;
    var ms := Asks(g, w, work, now, sent1);
    AskMessages(g, w, work, now, sent1);
    var v := Act(g, w, a);
    SentUp(g, w, Sends(ms, sent1, sent2), v);
    if Starts(g, w, a) {
      C.NoPolls(v.start, Cycle(g, v), []);
      if Fresh(w) {
        Below(g, w);
        SentOwn(w, Sends(ms, sent1, sent2), v);
      }
    }
  }

  lemma Below(g: Config, w: World)
    requires UpOk(g, w) && DownOk(g, w) && !w.running
    ensures forall i :: i in w.up ==> i < w.next && w.up[i].attempt < w.attempt
    ensures forall i :: i in w.down ==> w.down[i].attempt < w.attempt
  {
    hide IsSync, Request, Answer;
  }

  // Serve.

  lemma ServeMessages(g: Config, p: Packet, stale: seq<octet>, rx: Timespec, tx: Timespec)
    requires g.Valid() && Request(g, p) && |stale| == SERVICE_BUFFER && |p.data| <= SERVICE_BUFFER
    ensures M.ClaimsHeader(Cut(p.data, |stale|), |Cut(p.data, |stale|)|)
    ensures var ms := S.Serve(p.data, stale, g.clk, rx, tx, g.responseTwoSteps, true);
      && (ms != [] ==> IsSync(p))
      && (forall k :: 0 <= k < |ms| ==> Answer(g, Packet(p.attempt, p.cycle, ms[k]), Served(rx, tx)))
      && (|ms| > 0 ==> IsSync(Packet(p.attempt, p.cycle, ms[0])))
      && (|ms| > 1 ==> !IsSync(Packet(p.attempt, p.cycle, ms[1])))
  {
    hide Reads, M.ClaimsHeader, S.Serve, ToPtp, Id, Carries, IsFound, RespParts, Tellable;
    assert Cut(p.data, |stale|) == p.data;
    S.ServeMeaning(p.data, stale, g.clk, rx, tx, g.responseTwoSteps, true);
  }

  /** What serving message id of the uplink changes. */
  predicate ServedStep(w: World, id: nat, ms: seq<seq<octet>>, s: Served, v: World) {
    && id in w.up
    && v.up == w.up - {id} && v.down == Join(w.down, w.next, w.up[id].attempt, w.up[id].cycle, ms)
    && v.next == w.next + |ms|
    && v.served == (if ms == [] then w.served else w.served[w.up[id].attempt := s])
    && v == w.(up := v.up, down := v.down, next := v.next, served := v.served)
  }

  lemma UpRequest(g: Config, w: World, id: nat)
    requires UpOk(g, w) && id in w.up
    ensures Request(g, w.up[id]) && |w.up[id].data| == g.Size() && Made(w, w.up[id].attempt)
    ensures IsSync(w.up[id]) ==> w.up[id].attempt !in w.served
  {
    hide IsSync;
  }

  lemma ServeUp(g: Config, w: World, id: nat, ms: seq<seq<octet>>, s: Served, v: World)
    requires UpOk(g, w) && ServedStep(w, id, ms, s, v)
    requires ms != [] ==> IsSync(w.up[id])
    ensures UpOk(g, v)
  {
    hide Request, IsSync, Join;
  }

  lemma ServeDown(g: Config, w: World, id: nat, ms: seq<seq<octet>>, s: Served, v: World)
    requires DownOk(g, w) && ServedStep(w, id, ms, s, v)
    requires ms != [] ==> w.up[id].attempt !in w.served && Made(w, w.up[id].attempt)
    requires forall k :: 0 <= k < |ms| ==> Answer(g, Packet(w.up[id].attempt, w.up[id].cycle, ms[k]), s)
    ensures DownOk(g, v)
  {
    hide Answer, Join;
    var p := w.up[id];
    Joined(w.down, w.next, p.attempt, p.cycle, ms);
    forall i | i in v.down
      ensures i < v.next && v.down[i].attempt in v.served && Answer(g, v.down[i], v.served[v.down[i].attempt])
    {
      if i !in w.down {
        assert v.down[i] == Packet(p.attempt, p.cycle, ms[i - w.next]);
      }
    }
  }

  lemma ServeOwn(g: Config, w: World, id: nat, ms: seq<seq<octet>>, s: Served, v: World)
    requires OwnOk(w) && DownOk(g, w) && ServedStep(w, id, ms, s, v)
    requires ms != [] ==> IsSync(w.up[id]) && w.up[id].attempt !in w.served
    ensures OwnOk(v)
  {
    hide Answer, Join, IsSync, Id;
    var p := w.up[id];
    Joined(w.down, w.next, p.attempt, p.cycle, ms);
    if w.running {
      forall i | i in v.down
        ensures Id(v.down[i].cycle) == v.seqId <==> v.down[i].attempt == v.attempt
      {
        if i !in w.down {
          assert v.down[i] == Packet(p.attempt, p.cycle, ms[i - w.next]);
        }
      }
    }
  }

  lemma ServeKeeps(g: Config, w: World, a: Action)
    requires g.Valid() && Inv(g, w) && AllParsable(g, w) && Enabled(g, w, a) && a.Serve?
    ensures Inv(g, Act(g, w, a))
    ensures OwnOk(w) ==> OwnOk(Act(g, w, a))
  {
    hide UpOk, DownOk, OwnOk, Request, IsSync, Answer, Id, Join, ToPtp, S.Serve;
    ClientSizeFits(g);
    var Serve(id, stale, rx, tx) := a;
    var p, s := w.up[id], Served(rx, tx);
    UpRequest(g, w, id);
    ServeMessages(g, p, stale, rx, tx);
    var ms := S.Serve(p.data, stale, g.clk, rx, tx, g.responseTwoSteps, true);
    var v := Act(g, w, a);
    ServeUp(g, w, id, ms, s, v);
    ServeDown(g, w, id, ms, s, v);
    if OwnOk(w) {
      ServeOwn(g, w, id, ms, s, v);
    }
  }

  // Polls.

  /** One more poll is one more step of the flow. */
  lemma PollFlows(g: Config, w: World, ev: Poll)
    requires FlowOk(g, w) && w.running && !w.wait.Over() && C.Receivable(ev, g.Size())
    requires !C.Next(w.wait, C.Hear(Cycle(g, w), ev)).failed
    ensures FlowOk(g, Polled(g, w, ev))
  {
    hide C.Hear, C.Next, C.After, C.Goes, C.HeardIn;
    var c, n := Cycle(g, w), |w.polls|;
    var more := w.polls + [ev];
    SameHeard(c, w.polls, ev, n);
    C.OnePollMore(w.start, C.HeardIn(c, w.polls, n), C.Hear(c, ev), c, more);
  }

  /** What the first polls are to the client does not depend on the ones that follow. */
  lemma {:induction false} SameHeard(c: C.Cycle, polls: seq<Poll>, ev: Poll, n: nat)
    requires C.Trace(polls, c.size) && C.Receivable(ev, c.size) && n <= |polls|
    ensures C.Trace(polls + [ev], c.size) && C.HeardIn(c, polls + [ev], n) == C.HeardIn(c, polls, n)
  {
    hide C.Hear, C.Receivable;
    if n > 0 {
      SameHeard(c, polls, ev, n - 1);
    }
  }

  /**
   The client goes by the sequenceId alone: it accepts an answer of the
   service exactly if that matches, whichever attempt the answer is for, and
   takes the times of it.
   */
  lemma TakenById(g: Config, w: World, p: Packet, s: Served, rx: Timespec)
    requires g.Valid() && Answer(g, p, s) && rx.Normal()
    ensures C.Receivable(Datagram(p.data, g.service, rx), g.Size())
    ensures var h := C.Hear(Cycle(g, w), Datagram(p.data, g.service, rx));
      && (h.Accepted() <==> w.seqId == Id(p.cycle))
      && (h.Accepted() ==>
            var v := C.Next(w.wait, h);
            && v.loops == w.wait.loops
            && (if IsSync(p) then
                  v.r1 == s.rx && v.r2 == rx && !v.sync && !v.failed
                  && (if g.responseTwoSteps then v.t2 == w.wait.t2 && v.time == w.wait.time else v.t2 == s.tx && !v.time)
                else
                  v.t2 == s.tx && !v.time && v.r1 == w.wait.r1 && v.r2 == w.wait.r2 && v.sync == w.wait.sync
                  && v.failed == w.wait.failed && g.responseTwoSteps))
      && (!h.Accepted() ==> h == C.Ignored)
  {
    hide Reads, M.ClaimsHeader, ToPtp, Id, FromPtp;
    assert Cut(p.data, g.Size()) == p.data;
    PtpRoundTrip(s.rx);
    PtpRoundTrip(s.tx);
  }

  lemma HearKeeps(g: Config, w: World, a: Action)
    requires g.Valid() && Inv(g, w) && AllParsable(g, w) && Enabled(g, w, a) && a.Hear?
    ensures Inv(g, Act(g, w, a))
    ensures OwnOk(w) ==> OwnOk(Act(g, w, a))
  {
    hide UpOk, DownOk, FlowOk, OwnOk, IsSync, Answer, Id, Parsable, C.Hear, C.Receivable, C.Wait.Over, C.Next;
    var p, ev, v := w.down[a.id], Datagram(w.down[a.id].data, g.service, a.rx), Act(g, w, a);
    DownAnswer(g, w, a.id);
    TakenById(g, w, p, w.served[p.attempt], a.rx);
    NotFailed(g, w);
    IgnoredKeeps(w.wait);
    PollFlows(g, w, ev);
    SameFlow(g, Polled(g, w, ev), v);
    HearNet(g, w, a.id, v);
    if OwnOk(w) {
      HearOwn(g, w, a.id, a.rx, v);
    }
  }

  lemma DownAnswer(g: Config, w: World, id: nat)
    requires DownOk(g, w) && id in w.down
    ensures w.down[id].attempt in w.served && Answer(g, w.down[id], w.served[w.down[id].attempt])
  {
    hide Answer;
  }

  lemma HearNet(g: Config, w: World, id: nat, v: World)
    requires UpOk(g, w) && DownOk(g, w)
    requires v.up == w.up && v.down == w.down - {id} && v.next == w.next && v.served == w.served
    requires v.running == w.running && v.attempt == w.attempt
    ensures UpOk(g, v) && DownOk(g, v)
  {
    hide IsSync, Request, Answer;
  }

  lemma HearOwn(g: Config, w: World, id: nat, rx: Timespec, v: World)
    requires g.Valid() && DownOk(g, w) && OwnOk(w) && w.running && id in w.down && rx.Normal()
    requires C.Receivable(Datagram(w.down[id].data, g.service, rx), g.Size())
    requires v == Polled(g, w, Datagram(w.down[id].data, g.service, rx)).(
      down := w.down - {id}, heard := if IsSync(w.down[id]) then w.heard[w.down[id].attempt := rx] else w.heard)
    ensures OwnOk(v)
  {
    hide IsSync, Answer, Id, C.Hear, C.Receivable, C.Next;
    var p := w.down[id];
    DownAnswer(g, w, id);
    TakenById(g, w, p, w.served[p.attempt], rx);
    var h := C.Hear(Cycle(g, w), Datagram(p.data, g.service, rx));
    IgnoredKeeps(w.wait);
    assert h.Accepted() ==> p.attempt == w.attempt;
  }

  lemma IgnoredKeeps(w: C.Wait)
    ensures var v := C.Next(w, C.Ignored);
      v.sync == w.sync && v.time == w.time && v.failed == w.failed && v.r1 == w.r1 && v.t2 == w.t2 && v.r2 == w.r2
  {
  }

  lemma NotFailed(g: Config, w: World)
    requires FlowOk(g, w)
    ensures w.running ==> !w.wait.failed
  {
  }

  lemma SameFlow(g: Config, w: World, v: World)
    requires FlowOk(g, w) && v == w.(up := v.up, down := v.down, next := v.next, served := v.served, heard := v.heard)
    ensures FlowOk(g, v)
  {
  }

  lemma OtherKeeps(g: Config, w: World, a: Action)
    requires g.Valid() && Inv(g, w) && AllParsable(g, w) && Enabled(g, w, a) && a.Other?
    ensures Inv(g, Act(g, w, a))
    ensures OwnOk(w) ==> OwnOk(Act(g, w, a))
  {
    hide Request, IsSync, Answer, Id, Parsable, C.Hear, C.Receivable, C.After, C.Goes, C.HeardIn, FlowOk;
    ElsewhereIgnored(g, w, a.ev);
    NotFailed(g, w);
    PollFlows(g, w, a.ev);
  }

  /** What comes from elsewhere, or not at all, changes no time. */
  lemma ElsewhereIgnored(g: Config, w: World, ev: Poll)
    requires C.Receivable(ev, g.Size()) && (ev.Datagram? ==> ev.from != g.service)
    ensures var h := C.Hear(Cycle(g, w), ev);
      !h.Accepted() && (w.wait.loops > 0 ==> C.Next(w.wait, h).loops == w.wait.loops - 1)
  {
    hide Reads;
  }

  lemma FinishKeeps(g: Config, w: World, a: Action)
    requires g.Valid() && Inv(g, w) && AllParsable(g, w) && Enabled(g, w, a) && a.Finish?
    ensures Inv(g, Act(g, w, a)) && OwnOk(Act(g, w, a))
  {
    hide UpOk, DownOk, Id, Parsable, C.After, C.Goes, C.HeardIn, C.Trace;
    IdAfter(w.cycle);
    FinishNet(g, w, Act(g, w, a));
  }

  lemma FinishNet(g: Config, w: World, v: World)
    requires UpOk(g, w) && DownOk(g, w) && v.attempt == w.attempt + 1 && w.running
    requires v.up == w.up && v.down == w.down && v.next == w.next && v.served == w.served
    ensures UpOk(g, v) && DownOk(g, v)
  {
    hide IsSync, Request, Answer;
  }

  lemma IdAfter(c: nat)
    ensures C.NextId(Id(c)) == Id(c + 1)
  {
  }

  lemma LoseKeeps(g: Config, w: World, a: Action)
    requires g.Valid() && Inv(g, w) && AllParsable(g, w) && Enabled(g, w, a) && a.Lose?
    ensures Inv(g, Act(g, w, a))
    ensures OwnOk(w) ==> OwnOk(Act(g, w, a))
  {
    hide Request, IsSync, Answer, Id, Parsable, FlowOk;
    SameFlow(g, w, Act(g, w, a));
  }

  /**
   Every step of client, service and network keeps the invariant, with any
   result of the sends; and it keeps the times the client has its own, if the
   client begins to poll only with a fresh sequenceId.
   */
  lemma StepKeeps(g: Config, w: World, a: Action)
    requires g.Valid() && Inv(g, w) && Enabled(g, w, a)
    ensures AllParsable(g, w) && Inv(g, Act(g, w, a))
    ensures OwnOk(w) && (Starts(g, w, a) ==> Fresh(w)) ==> OwnOk(Act(g, w, a))
  {
    hide Inv, OwnOk, Fresh, Act;
    InvParsable(g, w);
    match a
    case Begin(_, _, _, _) => BeginKeeps(g, w, a);
    case Lose(_) => LoseKeeps(g, w, a);
    case Serve(_, _, _, _) => ServeKeeps(g, w, a);
    case Hear(_, _) => HearKeeps(g, w, a);
    case Other(_) => OtherKeeps(g, w, a);
    case Finish => FinishKeeps(g, w, a);
  }

  // Whole runs.

  /** The start: the client before its first attempt, nothing on the network. */
  predicate Initial(w: World) {
    w.attempt == 0 && w.cycle == 0 && w.seqId == 1 && !w.running && w.up == map[] && w.down == map[] && w.served == map[]
  }

  predicate Step(g: Config, w: World, a: Action, v: World)
    requires g.Valid()
  {
    Enabled(g, w, a) && (AllParsable(g, w) ==> v == Act(g, w, a))
  }

  /** The worlds ws that actions lead through. */
  predicate Path(g: Config, ws: seq<World>, actions: seq<Action>)
    requires g.Valid()
  {
    && |ws| == |actions| + 1
    && forall k {:trigger actions[k]} :: 0 <= k < |actions| ==> Step(g, ws[k], actions[k], ws[k + 1])
  }

  predicate Run(g: Config, ws: seq<World>, actions: seq<Action>)
    requires g.Valid()
  {
    Path(g, ws, actions) && Initial(ws[0])
  }

  /** Wherever the client begins to poll, before world k, its sequenceId is fresh. */
  predicate FreshUntil(g: Config, ws: seq<World>, actions: seq<Action>, k: nat)
    requires g.Valid() && Path(g, ws, actions)
  {
    forall i {:trigger actions[i]} :: 0 <= i < k && i < |actions| && Starts(g, ws[i], actions[i]) ==> Fresh(ws[i])
  }

  lemma {:induction false} PathKeeps(g: Config, ws: seq<World>, actions: seq<Action>, k: nat)
    requires g.Valid() && Path(g, ws, actions) && k < |ws| && Inv(g, ws[0])
    ensures Inv(g, ws[k])
    ensures OwnOk(ws[0]) && FreshUntil(g, ws, actions, k) ==> OwnOk(ws[k])
  {
    hide Act, Enabled, AllParsable, Starts, Fresh, OwnOk, Inv;
    if k > 0 {
      PathKeeps(g, ws, actions, k - 1);
      assert Step(g, ws[k - 1], actions[k - 1], ws[k]);
      StepKeeps(g, ws[k - 1], actions[k - 1]);
    }
  }

  lemma InitialOk(g: Config, w: World)
    requires Initial(w)
    ensures Inv(g, w) && OwnOk(w)
  {
  }

  lemma OwnIs(w: World)
    requires OwnOk(w)
    ensures Own(w)
  {
  }

  /**
   End-to-end safety, at every moment of every run, with any sends failing:
   the client never takes its early return; and if each attempt that gets to
   poll was begun while no request that may still be answered, and no
   answer, with its sequenceId was in flight, then an attempt that has all it
   waits for has the times of its own request: when the client made it, when
   the service had it, when the service answered, and when the client got the
   answer.
   */
  lemma SuccessfulAttempt(g: Config, ws: seq<World>, actions: seq<Action>, k: nat)
    requires g.Valid() && Run(g, ws, actions) && k < |ws|
    ensures ws[k].running ==> !ws[k].wait.failed
    ensures FreshUntil(g, ws, actions, k) ==> Own(ws[k])
  {
    hide Request, Answer, Path, OwnOk, Fresh, UpOk, DownOk, Own, Initial;
    InitialOk(g, ws[0]);
    PathKeeps(g, ws, actions, k);
    if FreshUntil(g, ws, actions, k) {
      OwnIs(ws[k]);
    }
  }

  /**
   The world's client is the client's flow: at every moment of every run its
   variables are those the polls of the attempt give, and when it stops to
   poll, a flow on these polls, whatever would come after them, stops there
   too, with these variables.
   */
  lemma AttemptIsFlow(g: Config, ws: seq<World>, actions: seq<Action>, k: nat, more: seq<Poll>, n: nat)
    requires g.Valid() && Run(g, ws, actions) && k < |ws| && ws[k].running && ws[k].wait.Over()
    requires C.Trace(more, g.Size()) && ws[k].polls <= more
    requires var w0, hs := ws[k].start, C.HeardIn(Cycle(g, ws[k]), more, n);
      C.Goes(w0, hs) && C.After(w0, hs).Over()
    ensures n == |ws[k].polls|
    ensures ws[k].start == C.Start(ws[k].start.r1, ws[k].start.t2, ws[k].start.r2)
    ensures ws[k].wait == C.After(ws[k].start, C.HeardIn(Cycle(g, ws[k]), more, n))
  {
    hide Request, Answer, Path, UpOk, DownOk, Initial, C.After, C.Goes, C.HeardIn, C.Trace, OwnOk;
    InitialOk(g, ws[0]);
    PathKeeps(g, ws, actions, k);
    var w := ws[k];
    var c, m := Cycle(g, w), |w.polls|;
    SameFront(c, w.polls, more, m);
    OneStop(c, w.start, more, n, m);
  }

  lemma {:induction false} SameFront(c: C.Cycle, polls: seq<Poll>, more: seq<Poll>, n: nat)
    requires C.Trace(polls, c.size) && C.Trace(more, c.size) && polls <= more && n <= |polls|
    ensures C.HeardIn(c, more, n) == C.HeardIn(c, polls, n)
  {
    hide C.Hear, C.Trace;
    if n > 0 {
      SameFront(c, polls, more, n - 1);
    }
  }

  /** A flow stops in one place. */
  lemma OneStop(c: C.Cycle, w: C.Wait, evs: seq<Poll>, n: nat, m: nat)
    requires C.Trace(evs, c.size)
    requires C.Goes(w, C.HeardIn(c, evs, n)) && C.After(w, C.HeardIn(c, evs, n)).Over()
    requires C.Goes(w, C.HeardIn(c, evs, m)) && C.After(w, C.HeardIn(c, evs, m)).Over()
    ensures n == m
  {
    hide C.After, C.Hear, C.Trace;
    if n < m {
      GoesBefore(c, w, evs, m, n);
    } else if m < n {
      GoesBefore(c, w, evs, n, m);
    }
  }

  lemma {:induction false} GoesBefore(c: C.Cycle, w: C.Wait, evs: seq<Poll>, n: nat, m: nat)
    requires C.Trace(evs, c.size) && m < n && C.Goes(w, C.HeardIn(c, evs, n))
    ensures !C.After(w, C.HeardIn(c, evs, m)).Over()
  {
    hide C.After, C.Hear, C.Trace, C.HeardIn, C.Wait.Over;
    HeardFront(c, evs, n);
    if m < n - 1 {
      GoesBefore(c, w, evs, n - 1, m);
    }
  }

  lemma HeardFront(c: C.Cycle, evs: seq<Poll>, n: nat)
    requires C.Trace(evs, c.size) && n > 0
    ensures C.HeardIn(c, evs, n) != [] && C.HeardIn(c, evs, n)[..n - 1] == C.HeardIn(c, evs, n - 1)
  {
    hide C.Hear, C.Trace;
  }
}
