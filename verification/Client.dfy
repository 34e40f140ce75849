/**
 One flow of the client, src/main_client.c: a request out, then polls until
 the response and the time it was sent have come, or the budget is used up.
 */
module Client {
  import opened Octets
  import opened Wrappers
  import opened Time
  import opened Wire
  import opened Sizes
  import opened MessageObject
  import opened PtpMessage
  import opened Parts
  import opened Dialogue
  import opened Network
  import opened Formats
  import M = Message
  import B = Builder

  const WAIT_LOOP: nat := 50
  const POLL_MS: nat := 50

  /** What the flow compares a received message with, and the size of the buffer it receives into. */
  datatype Cycle = Cycle(seqId: u16, domain: octet, service: Address, size: nat)

  /** A polled datagram is one that parse takes: it claims at least a header. */
  predicate Receivable(ev: Poll, size: nat) {
    ev.Datagram? ==> ev.rx.Normal() && M.ClaimsHeader(Cut(ev.octets, size), |Cut(ev.octets, size)|)
  }

  /** What a poll is to the client: nothing in time, something it ignores, or a message it accepts. */
  datatype Heard =
    | Silence
    | Ignored
    | HeardSync(oneStep: bool, time: PtpTime, ingress: seq<PtpTime>, rx: Timespec)
    | HeardTime(time: PtpTime)
  {
    predicate Accepted() {
      HeardSync? || HeardTime?
    }
  }

  function Hear(c: Cycle, ev: Poll): Heard
    requires Receivable(ev, c.size)
  {
    if ev.Timeout? then Silence
    else if ev.Failed? then Ignored
    else
      match Reads(Cut(ev.octets, c.size))
      case Unread => Ignored
      case Read(p, _, ingress) =>
        if p.sequenceId != c.seqId || p.domainNumber != c.domain || ev.from != c.service then Ignored
        else if p.kind == M.SYNC then HeardSync(!p.useTwoSteps, p.timestamp, ingress, ev.rx)
        else HeardTime(p.timestamp)
  }

  /** Times taken over in turn; one that is out of range changes nothing. */
  function LastValid(t: Timespec, ps: seq<PtpTime>): Timespec {
    if ps == [] then t
    else
      var n := |ps| - 1;
      match FromPtp(ps[n])
      case None => LastValid(t, ps[..n])
      case Some(u) => u
  }

  lemma LastValidOne(t: Timespec, p: PtpTime)
    ensures LastValid(t, [p]) == if FromPtp(p).Some? then FromPtp(p).value else t
  {
    assert [p][..0] == [];
  }

  lemma LastValidMore(t: Timespec, ps: seq<PtpTime>, p: PtpTime)
    ensures LastValid(t, ps + [p]) == if FromPtp(p).Some? then FromPtp(p).value else LastValid(t, ps)
  {
    assert (ps + [p])[..|ps|] == ps;
  }

  /** The flow's variables while it waits: loops left, what it still waits for, the times so far, the early return. */
  datatype Wait = Wait(
    loops: nat, sync: bool, time: bool, failed: bool, timeouts: nat,
    r1: Timespec, t2: Timespec, r2: Timespec)
  {
    predicate Over() {
      failed || loops == 0 || Done()
    }

    predicate Done() {
      !sync && !time
    }
  }

  function Next(w: Wait, h: Heard): Wait {
    match h
    case Silence => w.(loops := if w.loops > 0 then w.loops - 1 else 0, timeouts := w.timeouts + 1)
    case Ignored => w.(loops := if w.loops > 0 then w.loops - 1 else 0)
    case HeardTime(time) => w.(time := false, t2 := LastValid(w.t2, [time]))
    case HeardSync(oneStep, time, ingress, rx) => w.(
      sync := false,
      time := w.time && !oneStep,
      t2 := if oneStep then LastValid(w.t2, [time]) else w.t2,
      r2 := rx,
      r1 := LastValid(w.r1, ingress),
      failed := ingress == [])
  }

  /** The flow's variables after the polls hs. */
  function After(w: Wait, hs: seq<Heard>): Wait {
    if hs == [] then w else Next(After(w, hs[..|hs| - 1]), hs[|hs| - 1])
  }

  function Start(r1: Timespec, t2: Timespec, r2: Timespec): Wait {
    Wait(WAIT_LOOP, true, true, false, 0, r1, t2, r2)
  }

  /** The flow is not over before any of the polls hs. */
  predicate Goes(w: Wait, hs: seq<Heard>) {
    hs == [] || (Goes(w, hs[..|hs| - 1]) && !After(w, hs[..|hs| - 1]).Over())
  }

  /** The i-th poll; after the last of a trace nothing more comes. */
  function PollAt(evs: seq<Poll>, i: nat): Poll {
    if i < |evs| then evs[i] else Timeout
  }

  predicate Trace(evs: seq<Poll>, size: nat) {
    forall i :: 0 <= i < |evs| ==> Receivable(evs[i], size)
  }

  /** What the first n polls of a trace are to the client. */
  function HeardIn(c: Cycle, evs: seq<Poll>, n: nat): (hs: seq<Heard>)
    requires Trace(evs, c.size)
    ensures |hs| == n && forall i :: 0 <= i < n ==> hs[i] == Hear(c, PollAt(evs, i))
  {
    if n == 0 then [] else HeardIn(c, evs, n - 1) + [Hear(c, PollAt(evs, n - 1))]
  }

  // What the flow's result means for the polls.

  /** A message that says when the response was sent. */
  predicate Timed(h: Heard) {
    h.HeardTime? || (h.HeardSync? && h.oneStep)
  }

  /** A Sync that should have a RESPONSE and has none. */
  predicate Bare(h: Heard) {
    h.HeardSync? && h.ingress == []
  }

  /** The number of accepted messages. */
  function Accepted(hs: seq<Heard>): nat {
    if hs == [] then 0
    else Accepted(hs[..|hs| - 1]) + if hs[|hs| - 1].Accepted() then 1 else 0
  }

  /** Poll i is the latest that brought a Sync. */
  predicate LatestSync(hs: seq<Heard>, i: nat) {
    i < |hs| && hs[i].HeardSync? && forall j :: i < j < |hs| ==> !hs[j].HeardSync?
  }

  predicate LatestTime(hs: seq<Heard>, i: nat) {
    i < |hs| && Timed(hs[i]) && forall j :: i < j < |hs| ==> !Timed(hs[j])
  }

  lemma {:induction false} LoopsUsed(w: Wait, hs: seq<Heard>)
    requires Goes(w, hs)
    ensures |hs| + After(w, hs).loops == w.loops + Accepted(hs)
  {
    if hs != [] {
      LoopsUsed(w, hs[..|hs| - 1]);
    }
  }

  predicate SawSync(hs: seq<Heard>) {
    exists i :: 0 <= i < |hs| && hs[i].HeardSync?
  }

  predicate SawTime(hs: seq<Heard>) {
    exists i :: 0 <= i < |hs| && Timed(hs[i])
  }

  predicate SawBare(hs: seq<Heard>) {
    exists i :: 0 <= i < |hs| && Bare(hs[i])
  }

  lemma SawMore(hs: seq<Heard>, h: Heard)
    ensures SawSync(hs + [h]) <==> SawSync(hs) || h.HeardSync?
    ensures SawTime(hs + [h]) <==> SawTime(hs) || Timed(h)
    ensures SawBare(hs + [h]) <==> SawBare(hs) || Bare(h)
  {
    hide Timed, Bare;
    var more := hs + [h];
    assert more[|hs|] == h && forall i :: 0 <= i < |hs| ==> more[i] == hs[i];
  }

  /** The flow waits for a Sync and for a time, until it has seen each. */
  lemma {:induction false} WaitedFor(w: Wait, hs: seq<Heard>)
    requires Goes(w, hs) && w.sync && w.time && !w.failed
    ensures !After(w, hs).sync <==> SawSync(hs)
    ensures !After(w, hs).time <==> SawTime(hs)
    ensures After(w, hs).failed <==> SawBare(hs)
  {
    hide LastValid;
    if hs != [] {
      hide SawSync, SawTime, SawBare;
      var n := |hs| - 1;
      WaitedFor(w, hs[..n]);
      SawMore(hs[..n], hs[n]);
      assert hs == hs[..n] + [hs[n]];
    }
  }

  /** Later times replace earlier ones. */
  lemma {:induction false} LatestWins(w: Wait, hs: seq<Heard>)
    ensures forall i: nat :: LatestSync(hs, i) ==>
      && After(w, hs).r2 == hs[i].rx
      && (var ps := hs[i].ingress;
          ps != [] && FromPtp(ps[|ps| - 1]).Some? ==> After(w, hs).r1 == FromPtp(ps[|ps| - 1]).value)
    ensures forall i: nat :: LatestTime(hs, i) && FromPtp(hs[i].time).Some? ==>
      After(w, hs).t2 == FromPtp(hs[i].time).value
  {
    if hs != [] {
      var n := |hs| - 1;
      LatestWins(w, hs[..n]);
      forall i: nat | LatestSync(hs, i) && i < n
        ensures LatestSync(hs[..n], i)
      {
        assert !hs[n].HeardSync?;
      }
      forall i: nat | LatestTime(hs, i) && i < n
        ensures LatestTime(hs[..n], i)
      {
        assert !Timed(hs[n]);
      }
    }
  }

  /**
   What the polls of one flow come to, whatever they bring.  Their number is
   50, less the loops left, plus one for each accepted message.  The flow
   fails early exactly when it accepts a Sync without a RESPONSE; otherwise
   it succeeds exactly when a Sync and a message with the response's send
   time were accepted.  r2 and r1 are then of the latest accepted Sync, t2 of
   the latest accepted message with a send time, as far as these times are in
   range.
   */
  lemma FlowMeaning(r1: Timespec, t2: Timespec, r2: Timespec, hs: seq<Heard>)
    requires Goes(Start(r1, t2, r2), hs)
    ensures var w := After(Start(r1, t2, r2), hs);
      && |hs| + w.loops == 50 + Accepted(hs)
      && (w.failed <==> SawBare(hs))
      && (w.Done() <==> SawSync(hs) && SawTime(hs))
      && (forall i: nat :: LatestSync(hs, i) ==>
            && w.r2 == hs[i].rx
            && (var ps := hs[i].ingress;
                ps != [] && FromPtp(ps[|ps| - 1]).Some? ==> w.r1 == FromPtp(ps[|ps| - 1]).value))
      && (forall i: nat :: LatestTime(hs, i) && FromPtp(hs[i].time).Some? ==> w.t2 == FromPtp(hs[i].time).value)
  {
    hide After, Accepted, FromPtp, SawSync, SawTime, SawBare;
    var w := Start(r1, t2, r2);
    LoopsUsed(w, hs);
    WaitedFor(w, hs);
    LatestWins(w, hs);
  }

  // The same, told by the octets received.

  /** The octets of a datagram as far as the buffer holds them. */
  function Got(c: Cycle, ev: Poll): seq<octet>
    requires ev.Datagram?
  {
    Cut(ev.octets, c.size)
  }

  /** A datagram from the service that parse takes, with the flow's sequenceId and domain. */
  predicate Taken(c: Cycle, ev: Poll)
    requires Receivable(ev, c.size)
  {
    && ev.Datagram? && ev.from == c.service
    && M.Parse(Got(c, ev), |Got(c, ev)|).Parsed?
    && |Got(c, ev)| >= 44 && Big2(Got(c, ev), 30) == c.seqId && Got(c, ev)[4] == c.domain
  }

  predicate TakenSync(c: Cycle, ev: Poll)
    requires Receivable(ev, c.size)
  {
    Taken(c, ev) && Got(c, ev)[0] % 16 == 0
  }

  /** A message with the time the response was sent: a Follow_Up, or a Sync in one step. */
  predicate TakenTime(c: Cycle, ev: Poll)
    requires Receivable(ev, c.size)
  {
    Taken(c, ev) && (Got(c, ev)[0] % 16 == 8 || Got(c, ev)[6] == 4)
  }

  predicate TakenBare(c: Cycle, ev: Poll)
    requires Receivable(ev, c.size)
  {
    TakenSync(c, ev) && forall t <- M.Parse(Got(c, ev), |Got(c, ev)|).msg.tlvs :: t.id != 0xff01
  }

  /** Which polls the client accepts, and what it makes of them. */
  lemma HearIs(c: Cycle, ev: Poll)
    requires Receivable(ev, c.size)
    ensures Hear(c, ev).Accepted() <==> Taken(c, ev)
    ensures !Taken(c, ev) ==> Hear(c, ev) == if ev.Timeout? then Silence else Ignored
    ensures Taken(c, ev) ==>
      var g := Got(c, ev);
      var r := M.Parse(g, |g|);
      && (g[0] % 16 == 0 || g[0] % 16 == 8)
      && (g[0] % 16 == 8 ==> Hear(c, ev) == HeardTime(WirePtp(g, 34)))
      && Inside(r.octets, r.msg.tlvs)
      && (g[0] % 16 == 0 ==>
            Hear(c, ev) == HeardSync(g[6] == 4, WirePtp(g, 34), IngressIn(r.octets, r.msg.tlvs), ev.rx))
  {
    hide M.Parse, M.ClaimsHeader, RequestFlagsIn, IngressIn, Inside, Big2;
    if ev.Datagram? {
      var g := Got(c, ev);
      ParsedInside(g, |g|);
      if M.Parse(g, |g|).Parsed? {
        ParsedParams(g, |g|);
        ParseAccepts(g, |g|);
        ParsedTime(g, |g|);
      }
    }
  }

  /** What a poll does to the loops left, to what the flow waits for and to its times. */
  lemma NextIs(w: Wait, c: Cycle, ev: Poll)
    requires Receivable(ev, c.size) && w.loops > 0
    ensures var v := Next(w, Hear(c, ev));
      && (!Taken(c, ev) ==> v == w.(loops := w.loops - 1, timeouts := w.timeouts + if ev.Timeout? then 1 else 0))
      && (Taken(c, ev) ==> v.loops == w.loops && v.timeouts == w.timeouts)
      && (Taken(c, ev) ==> v.sync == (w.sync && !TakenSync(c, ev)) && v.time == (w.time && !TakenTime(c, ev)))
      && (TakenSync(c, ev) ==> v.r2 == ev.rx && v.failed == TakenBare(c, ev))
      && (Taken(c, ev) && !TakenSync(c, ev) ==> v.r2 == w.r2 && v.r1 == w.r1 && v.failed == w.failed)
      && (Taken(c, ev) && !TakenTime(c, ev) ==> v.t2 == w.t2)
      && (TakenTime(c, ev) ==>
            var p := WirePtp(Got(c, ev), 34);
            v.t2 == if p.nsec < 1_000_000_000 then Timespec(p.high * 0x1_0000_0000 + p.low, p.nsec) else w.t2)
  {
    hide M.Parse, M.ClaimsHeader, Hear, IngressIn, Inside, Big2, WirePtp, LastValid;
    HearIs(c, ev);
    if Taken(c, ev) {
      var g := Got(c, ev);
      var r := M.Parse(g, |g|);
      LastValidOne(w.t2, WirePtp(g, 34));
      BareIngress(r.octets, r.msg.tlvs);
    }
  }

  lemma {:induction false} BareIngress(s: seq<octet>, tlvs: seq<M.Tlv>)
    requires Inside(s, tlvs)
    ensures IngressIn(s, tlvs) == [] <==> forall t <- tlvs :: t.id != 0xff01
  {
    if tlvs != [] {
      BareIngress(s, tlvs[..|tlvs| - 1]);
    }
  }

  /** r1 takes over the last ingress time that is in range, if there is one. */
  lemma {:induction false} LastValidIs(t: Timespec, ps: seq<PtpTime>, k: nat)
    requires k <= |ps| && forall j :: k <= j < |ps| ==> ps[j].nsec >= 1_000_000_000
    requires k == 0 || ps[k - 1].nsec < 1_000_000_000
    ensures k == 0 ==> LastValid(t, ps) == t
    ensures k > 0 ==>
      LastValid(t, ps) == Timespec(ps[k - 1].high * 0x1_0000_0000 + ps[k - 1].low, ps[k - 1].nsec)
  {
    if k < |ps| {
      LastValidIs(t, ps[..|ps| - 1], k);
    }
  }

  /** How many of the first n polls the client accepts. */
  function TakenIn(c: Cycle, evs: seq<Poll>, n: nat): nat
    requires Trace(evs, c.size)
  {
    if n == 0 then 0 else TakenIn(c, evs, n - 1) + if Taken(c, PollAt(evs, n - 1)) then 1 else 0
  }

  function TimeoutsIn(evs: seq<Poll>, n: nat): nat {
    if n == 0 then 0 else TimeoutsIn(evs, n - 1) + if PollAt(evs, n - 1).Timeout? then 1 else 0
  }

  predicate SyncCame(c: Cycle, evs: seq<Poll>, n: nat)
    requires Trace(evs, c.size)
  {
    exists i :: 0 <= i < n && TakenSync(c, PollAt(evs, i))
  }

  predicate TimeCame(c: Cycle, evs: seq<Poll>, n: nat)
    requires Trace(evs, c.size)
  {
    exists i :: 0 <= i < n && TakenTime(c, PollAt(evs, i))
  }

  predicate BareCame(c: Cycle, evs: seq<Poll>, n: nat)
    requires Trace(evs, c.size)
  {
    exists i :: 0 <= i < n && TakenBare(c, PollAt(evs, i))
  }

  /** After n polls there is nothing more to wait for: 50 of them were not accepted, all has come, or a bare Sync has. */
  predicate Stops(c: Cycle, evs: seq<Poll>, n: nat)
    requires Trace(evs, c.size)
  {
    n == 50 + TakenIn(c, evs, n) || (SyncCame(c, evs, n) && TimeCame(c, evs, n)) || BareCame(c, evs, n)
  }

  /** The poll of a trace and what the flow heard in it. */
  lemma HeardSame(c: Cycle, ev: Poll)
    requires Receivable(ev, c.size)
    ensures var h := Hear(c, ev);
      && (h.Accepted() <==> Taken(c, ev)) && (h.HeardSync? <==> TakenSync(c, ev))
      && (Timed(h) <==> TakenTime(c, ev)) && (Bare(h) <==> TakenBare(c, ev))
  {
    hide M.Parse, M.ClaimsHeader, Hear, IngressIn, Inside, Big2, WirePtp;
    HearIs(c, ev);
    if Taken(c, ev) {
      var r := M.Parse(Got(c, ev), |Got(c, ev)|);
      BareIngress(r.octets, r.msg.tlvs);
    }
  }

  lemma {:induction false} HeardTaken(c: Cycle, evs: seq<Poll>, n: nat)
    requires Trace(evs, c.size)
    ensures var hs := HeardIn(c, evs, n);
      && Accepted(hs) == TakenIn(c, evs, n)
      && (SawSync(hs) <==> SyncCame(c, evs, n)) && (SawTime(hs) <==> TimeCame(c, evs, n)) && (SawBare(hs) <==> BareCame(c, evs, n))
  {
    hide Hear, Taken, TakenSync, TakenTime, TakenBare, Timed, Bare, Receivable;
    forall i | 0 <= i < n
      ensures var h, ev := HeardIn(c, evs, n)[i], PollAt(evs, i);
        && Receivable(ev, c.size) && (h.HeardSync? <==> TakenSync(c, ev))
        && (Timed(h) <==> TakenTime(c, ev)) && (Bare(h) <==> TakenBare(c, ev))
    {
      TimeoutReceivable(c.size);
      HeardSame(c, PollAt(evs, i));
    }
    if n > 0 {
      HeardTaken(c, evs, n - 1);
      TimeoutReceivable(c.size);
      HeardSame(c, PollAt(evs, n - 1));
      assert HeardIn(c, evs, n)[..n - 1] == HeardIn(c, evs, n - 1);
    }
  }

  lemma TimeoutReceivable(size: nat)
    ensures Receivable(Timeout, size)
  {
  }

  /** Where a flow that went on for n polls stands. */
  lemma StandsAt(c: Cycle, evs: seq<Poll>, n: nat, r1: Timespec, t2: Timespec, r2: Timespec)
    requires Trace(evs, c.size) && Goes(Start(r1, t2, r2), HeardIn(c, evs, n))
    ensures var v := After(Start(r1, t2, r2), HeardIn(c, evs, n));
      && v.loops + n == 50 + TakenIn(c, evs, n)
      && (v.failed <==> BareCame(c, evs, n)) && (v.Done() <==> SyncCame(c, evs, n) && TimeCame(c, evs, n))
      && (v.Over() <==> Stops(c, evs, n))
  {
    hide After, Goes, Accepted, SawSync, SawTime, SawBare, SyncCame, TimeCame, BareCame, TakenIn, FromPtp, Hear, Trace, Receivable, LatestSync, LatestTime;
    HeardTaken(c, evs, n);
    FlowMeaning(r1, t2, r2, HeardIn(c, evs, n));
  }

  /**
   The polls of a flow: it goes on exactly as long as nothing stops it; so
   the polls after which it is over are the fewest after which it stops.
   */
  lemma {:induction false} StopsFirst(c: Cycle, evs: seq<Poll>, n: nat, r1: Timespec, t2: Timespec, r2: Timespec)
    requires Trace(evs, c.size)
    ensures Goes(Start(r1, t2, r2), HeardIn(c, evs, n)) <==> forall k: nat :: k < n ==> !Stops(c, evs, k)
  {
    hide After, Stops, Hear, Trace, Receivable, Wait.Over;
    var w, hs := Start(r1, t2, r2), HeardIn(c, evs, n);
    if n > 0 {
      StopsFirst(c, evs, n - 1, r1, t2, r2);
      assert hs[..n - 1] == HeardIn(c, evs, n - 1);
      if Goes(w, hs[..n - 1]) {
        StandsAt(c, evs, n - 1, r1, t2, r2);
      }
      assert (forall k: nat :: k < n ==> !Stops(c, evs, k))
        <==> (forall k: nat :: k < n - 1 ==> !Stops(c, evs, k)) && !Stops(c, evs, n - 1);
    }
  }

  /** r2 and r1 are of the latest Sync taken. */
  lemma LatestSyncTaken(c: Cycle, evs: seq<Poll>, n: nat, i: nat, r1: Timespec, t2: Timespec, r2: Timespec)
    requires Trace(evs, c.size) && Goes(Start(r1, t2, r2), HeardIn(c, evs, n))
    requires i < n && TakenSync(c, PollAt(evs, i)) && forall j :: i < j < n ==> !TakenSync(c, PollAt(evs, j))
    ensures var v, ev := After(Start(r1, t2, r2), HeardIn(c, evs, n)), PollAt(evs, i);
      var r := M.Parse(Got(c, ev), |Got(c, ev)|);
      && v.r2 == ev.rx && Inside(r.octets, r.msg.tlvs)
      && var ps := IngressIn(r.octets, r.msg.tlvs);
        ps != [] && ps[|ps| - 1].nsec < 1_000_000_000 ==>
          v.r1 == Timespec(ps[|ps| - 1].high * 0x1_0000_0000 + ps[|ps| - 1].low, ps[|ps| - 1].nsec)
  {
    hide After, Goes, Accepted, SawSync, SawTime, SawBare, Hear, M.Parse, IngressIn, Inside, Receivable, TakenSync, LatestTime;
    var hs := HeardIn(c, evs, n);
    forall j | i <= j < n
      ensures Receivable(PollAt(evs, j), c.size) && (hs[j].HeardSync? <==> TakenSync(c, PollAt(evs, j)))
    {
      TimeoutReceivable(c.size);
      HeardSame(c, PollAt(evs, j));
    }
    HeardAsSync(c, PollAt(evs, i));
    assert LatestSync(hs, i);
    FlowMeaning(r1, t2, r2, hs);
  }

  lemma HeardAsSync(c: Cycle, ev: Poll)
    requires Receivable(ev, c.size) && TakenSync(c, ev)
    ensures var r := M.Parse(Got(c, ev), |Got(c, ev)|);
      && Inside(r.octets, r.msg.tlvs)
      && Hear(c, ev) == HeardSync(Got(c, ev)[6] == 4, WirePtp(Got(c, ev), 34), IngressIn(r.octets, r.msg.tlvs), ev.rx)
  {
    hide Hear, M.Parse, IngressIn, Inside, Receivable, WirePtp, Big2;
    HearIs(c, ev);
  }

  /** t2 is of the latest message taken that has the time the response was sent. */
  lemma LatestTimeTaken(c: Cycle, evs: seq<Poll>, n: nat, i: nat, r1: Timespec, t2: Timespec, r2: Timespec)
    requires Trace(evs, c.size) && Goes(Start(r1, t2, r2), HeardIn(c, evs, n))
    requires i < n && TakenTime(c, PollAt(evs, i)) && forall j :: i < j < n ==> !TakenTime(c, PollAt(evs, j))
    ensures var v, p := After(Start(r1, t2, r2), HeardIn(c, evs, n)), WirePtp(Got(c, PollAt(evs, i)), 34);
      p.nsec < 1_000_000_000 ==> v.t2 == Timespec(p.high * 0x1_0000_0000 + p.low, p.nsec)
  {
    hide After, Goes, Accepted, SawSync, SawTime, SawBare, Hear, WirePtp, Receivable, TakenTime, Timed, LatestSync;
    var hs := HeardIn(c, evs, n);
    forall j | i <= j < n
      ensures Receivable(PollAt(evs, j), c.size) && (Timed(hs[j]) <==> TakenTime(c, PollAt(evs, j)))
    {
      TimeoutReceivable(c.size);
      HeardSame(c, PollAt(evs, j));
    }
    HeardAsTime(c, PollAt(evs, i));
    assert LatestTime(hs, i);
    FlowMeaning(r1, t2, r2, hs);
  }

  lemma HeardAsTime(c: Cycle, ev: Poll)
    requires Receivable(ev, c.size) && TakenTime(c, ev)
    ensures Timed(Hear(c, ev)) && Hear(c, ev).time == WirePtp(Got(c, ev), 34)
  {
    hide Hear, M.Parse, IngressIn, Inside, Receivable, WirePtp, Big2;
    HearIs(c, ev);
  }

  /** Without such messages the times stay; and the polls in which nothing came in time are counted. */
  lemma {:induction false} NothingTaken(c: Cycle, evs: seq<Poll>, n: nat, r1: Timespec, t2: Timespec, r2: Timespec)
    requires Trace(evs, c.size) && Goes(Start(r1, t2, r2), HeardIn(c, evs, n))
    ensures var w := After(Start(r1, t2, r2), HeardIn(c, evs, n));
      && (!SyncCame(c, evs, n) ==> w.r1 == r1 && w.r2 == r2) && (!TimeCame(c, evs, n) ==> w.t2 == t2)
      && w.timeouts == TimeoutsIn(evs, n)
  {
    hide After, Goes, Hear, HeardIn, TakenSync, TakenTime, SyncCame, TimeCame, Receivable, Next, Trace;
    NothingCame(c, evs, n);
    LastHeard(c, evs, n, Start(r1, t2, r2));
    if n > 0 {
      NothingTaken(c, evs, n - 1, r1, t2, r2);
      NextKeeps(After(Start(r1, t2, r2), HeardIn(c, evs, n - 1)), c, PollAt(evs, n - 1));
    }
  }

  lemma LastHeard(c: Cycle, evs: seq<Poll>, n: nat, w: Wait)
    requires Trace(evs, c.size) && Goes(w, HeardIn(c, evs, n))
    ensures n == 0 ==> After(w, HeardIn(c, evs, n)) == w
    ensures n > 0 ==>
      && Receivable(PollAt(evs, n - 1), c.size) && Goes(w, HeardIn(c, evs, n - 1))
      && After(w, HeardIn(c, evs, n - 1)).loops > 0
      && After(w, HeardIn(c, evs, n)) == Next(After(w, HeardIn(c, evs, n - 1)), Hear(c, PollAt(evs, n - 1)))
  {
    hide Hear, Next, Receivable;
    TimeoutReceivable(c.size);
    if n > 0 {
      assert HeardIn(c, evs, n)[..n - 1] == HeardIn(c, evs, n - 1);
    }
  }

  lemma NothingCame(c: Cycle, evs: seq<Poll>, n: nat)
    requires Trace(evs, c.size)
    ensures n > 0 ==> Receivable(PollAt(evs, n - 1), c.size)
    ensures n > 0 && !SyncCame(c, evs, n) ==> !SyncCame(c, evs, n - 1) && !TakenSync(c, PollAt(evs, n - 1))
    ensures n > 0 && !TimeCame(c, evs, n) ==> !TimeCame(c, evs, n - 1) && !TakenTime(c, PollAt(evs, n - 1))
  {
    hide TakenSync, TakenTime, Receivable;
    TimeoutReceivable(c.size);
  }

  lemma NextKeeps(w: Wait, c: Cycle, ev: Poll)
    requires Receivable(ev, c.size) && w.loops > 0
    ensures var v := Next(w, Hear(c, ev));
      && (!TakenSync(c, ev) ==> v.r1 == w.r1 && v.r2 == w.r2) && (!TakenTime(c, ev) ==> v.t2 == w.t2)
      && v.timeouts == w.timeouts + if ev.Timeout? then 1 else 0
  {
    hide Hear, Receivable, WirePtp, Got, Next;
    NextIs(w, c, ev);
    TakenKinds(c, ev);
  }

  lemma TakenKinds(c: Cycle, ev: Poll)
    requires Receivable(ev, c.size)
    ensures TakenSync(c, ev) || TakenTime(c, ev) ==> Taken(c, ev)
    ensures ev.Timeout? ==> !Taken(c, ev)
  {
  }

  /** The sequenceId of the next flow; 0 is skipped. */
  function NextId(id: u16): u16 {
    if id == 0xffff then 1 else id + 1
  }

  /** The parameters of a request's messages. */
  function RequestParams(p: M.Params, kind: octet, seqId: u16, t: PtpTime): M.Params {
    p.(kind := kind, sequenceId := seqId, timestamp := t)
  }

  /** The messages a flow sends; sent says whether the first send succeeds. */
  function Requests(w: M.Work, p: M.Params, flags: octet, size: nat, seqId: u16, now: Timespec, twoSteps: bool, sent: bool)
    : (ms: seq<seq<octet>>)
    requires |w.octets| <= MAX_MESSAGE && p.flagField2 < 0x40
    ensures |ms| <= 2
  {
    match ToPtp(now)
    case None => []
    case Some(t) =>
      var r := BuildRequest(w, RequestParams(p, M.SYNC, seqId, t), flags, size);
      if !r.0 then []
      else
        RequestIsRead(w, RequestParams(p, M.SYNC, seqId, t), flags, size);
        var first := [Sent(r.1)];
        if !twoSteps || !sent then first
        else
          RequestLength(w, RequestParams(p, M.SYNC, seqId, t), flags, size);
          var f := BuildPlain(r.1, RequestParams(p, M.FOLLOW_UP, seqId, PtpTime(0, 0, 0)), size);
          if !f.0 then first
          else
            PlainIsRead(r.1, RequestParams(p, M.FOLLOW_UP, seqId, PtpTime(0, 0, 0)), size);
            first + [Sent(f.1)]
  }

  lemma RequestLength(w: M.Work, p: M.Params, flags: octet, size: nat)
    requires |w.octets| <= MAX_MESSAGE && BuildRequest(w, p, flags, size).0
    ensures |BuildRequest(w, p, flags, size).1.octets| == |w.octets|
  {
    hide B.Building, M.Init, M.AddReqTlv;
    B.InitBuilds(w, p);
    InitIs(w, p);
    var i := M.Init(w, p).1;
    B.AddReqTlvBuilds(i, p, flags);
    AddReqIs(i, flags);
    B.BuildDoneSucceeds(M.AddReqTlv(i, flags).1, p, size);
  }

  predicate ReadsAs(m: seq<octet>, size: nat, r: Reading) {
    |m| == size && M.ClaimsHeader(m, size) && Reads(m) == r
  }

  /** What a flow's messages say to whoever reads them. */
  lemma RequestsMeaning(w: M.Work, p: M.Params, flags: octet, size: nat, seqId: u16, now: Timespec, twoSteps: bool, sent: bool)
    requires |w.octets| <= MAX_MESSAGE && p.flagField2 < 0x40 && size > 0
    ensures var ms := Requests(w, p, flags, size, seqId, now, twoSteps, sent);
      && (|ms| > 0 ==> ToPtp(now).Some?)
      && (|ms| > 0 ==>
            ReadsAs(ms[0], size, Read(
              M.Params(0, p.domainNumber, p.correctionField, seqId, p.flagField2, ToPtp(now).value, p.useTwoSteps),
              Some(flags % 4), [])))
      && (|ms| > 1 ==> twoSteps && sent)
      && (|ms| > 1 ==>
            ReadsAs(ms[1], size, Read(
              M.Params(8, p.domainNumber, p.correctionField, seqId, p.flagField2, PtpTime(0, 0, 0), p.useTwoSteps),
              None, [])))
  {
    hide BuildRequest, BuildPlain, ToPtp, Reads, M.ClaimsHeader;
    if ToPtp(now).Some? {
      var q, f := RequestParams(p, M.SYNC, seqId, ToPtp(now).value), RequestParams(p, M.FOLLOW_UP, seqId, PtpTime(0, 0, 0));
      var r := BuildRequest(w, q, flags, size);
      if r.0 {
        RequestIsRead(w, q, flags, size);
        RequestLength(w, q, flags, size);
        if BuildPlain(r.1, f, size).0 {
          PlainIsRead(r.1, f, size);
        }
      }
    }
  }

  class ClientState {
    const buf: Buffer
    const msg: PtpMsg
    const t1: Timestamp
    const r1: Timestamp
    const t2: Timestamp
    const r2: Timestamp
    const tmpTs: Timestamp
    const address: Address // of the service
    const size: nat
    const tlvReqFlags0: octet
    var params: M.Params
    var rxAddress: Address

    ghost predicate Valid()
      reads this, buf, msg, t1, r1, t2, r2, tmpTs
    {
      && buf.Valid() && (msg.buf == null || msg.buf == buf) && msg.Valid()
      && t1.Valid() && r1.Valid() && t2.Valid() && r2.Valid() && tmpTs.Valid()
      && t1 !in {r1, t2, r2, tmpTs} && r1 !in {t2, r2, tmpTs} && t2 !in {r2, tmpTs} && r2 != tmpTs
      && params.flagField2 == 0
    }

    /** client_main_allocObjs */
    constructor (status: bool, altTime: bool, family: u16, domain: octet, twoSteps: bool, address: Address)
      requires family == UDP_IPV4 || family == UDP_IPV6
      ensures Valid() && size == buf.data.Length == ClientSize(status, altTime, family)
      ensures tlvReqFlags0 == RequestFlags(status, altTime) && this.address == address
      ensures params == M.Params(0, domain, 0, 0, 0, PtpTime(0, 0, 0), twoSteps)
    {
      hide ClientSize;
      ClientSizes(status, altTime, family);
      ClientSizeFits(status, altTime, family);
      msg := new PtpMsg();
      buf := new Buffer(ClientSize(status, altTime, family));
      tmpTs := new Timestamp();
      t1 := new Timestamp();
      r1 := new Timestamp();
      t2 := new Timestamp();
      r2 := new Timestamp();
      size := ClientSize(status, altTime, family);
      tlvReqFlags0 := RequestFlags(status, altTime);
      this.address, rxAddress := address, [];
      params := M.Params(0, domain, 0, 0, 0, PtpTime(0, 0, 0), twoSteps);
    }

    ghost function Work(): M.Work
      reads this, buf, buf.data, msg
    {
      M.Work(buf.data[..], buf.len, msg.State())
    }

    /** init, addCSPTPReqTlv and buildDone with the parameters as they are. */
    method BuildSync() returns (ok: bool)
      requires Valid()
      modifies msg, buf, buf.data
      ensures Valid()
      ensures ok == BuildRequest(old(Work()), params, tlvReqFlags0, size).0
      ensures ok ==> Work() == BuildRequest(old(Work()), params, tlvReqFlags0, size).1
    {
      hide B.Building, M.Init, M.BuildDone, M.AddReqTlv, M.Ready;
      ghost var w := Work();
      B.InitBuilds(w, params);
      ok := msg.Init(params, buf);
      if !ok {
        return;
      }
      InitIs(w, params);
      B.AddReqTlvBuilds(Work(), params, tlvReqFlags0);
      ok := msg.AddCSPTPReqTlv(tlvReqFlags0);
      if !ok {
        return;
      }
      BuildingFacts(Work(), params);
      ok := msg.BuildDone(size);
    }

    /** client_main_sendReqSync up to the send; now is what the clock shows. */
    method BuildReqSync(seqId: u16, now: Timespec) returns (ok: bool)
      requires Valid() && now.Normal()
      modifies this`params, t1, msg, buf, buf.data
      ensures Valid() && t1.ts == now
      ensures ToPtp(now).Some? ==>
        params == old(params).(kind := M.SYNC, sequenceId := seqId, timestamp := ToPtp(now).value)
      ensures ok <==> ToPtp(now).Some? && BuildRequest(old(Work()), params, tlvReqFlags0, size).0
      ensures ok ==> Work() == BuildRequest(old(Work()), params, tlvReqFlags0, size).1
      ensures params.domainNumber == old(params.domainNumber) && params.useTwoSteps == old(params.useTwoSteps)
    {
      hide BuildRequest, ToPtp;
      params := params.(kind := M.SYNC, sequenceId := seqId);
      t1.FromTimespec(now);
      var t := t1.ToTimestamp();
      if t.None? {
        return false;
      }
      params := params.(timestamp := t.value);
      ok := BuildSync();
    }

    /** client_main_sendFollowUp up to the send. */
    method BuildFollowUp(seqId: u16) returns (ok: bool)
      requires Valid()
      modifies this`params, msg, buf, buf.data
      ensures Valid()
      ensures params == old(params).(kind := M.FOLLOW_UP, sequenceId := seqId, timestamp := PtpTime(0, 0, 0))
      ensures ok == BuildPlain(old(Work()), params, size).0
      ensures ok ==> Work() == BuildPlain(old(Work()), params, size).1
    {
      hide B.Building, M.Init, M.BuildDone;
      ghost var w := Work();
      params := params.(kind := M.FOLLOW_UP, sequenceId := seqId, timestamp := PtpTime(0, 0, 0));
      B.InitBuilds(w, params);
      ok := msg.Init(params, buf);
      if !ok {
        return;
      }
      InitIs(w, params);
      ok := msg.BuildDone(size);
    }

    /** The requests of a flow. */
    method SendRequests(seqId: u16, now: Timespec, twoSteps: bool, sent1: bool, sent2: bool)
      returns (ok: bool, ms: seq<seq<octet>>)
      requires Valid() && now.Normal()
      modifies this`params, t1, msg, buf, buf.data
      ensures Valid() && t1.ts == now
      ensures ms == Requests(old(Work()), old(params), tlvReqFlags0, size, seqId, now, twoSteps, sent1)
      ensures ok == (|ms| == (if twoSteps then 2 else 1) && sent1 && (twoSteps ==> sent2))
    {
      hide BuildRequest, BuildPlain, ToPtp, Reads;
      ms := [];
      ghost var w, p := Work(), params;
      ok := BuildReqSync(seqId, now);
      if !ok {
        return;
      }
      ghost var q := RequestParams(p, M.SYNC, seqId, ToPtp(now).value);
      RequestIsRead(w, q, tlvReqFlags0, size);
      RequestLength(w, q, tlvReqFlags0, size);
      ms := [buf.data[..buf.len]];
      assert ms[0] == Sent(Work());
      ok := sent1;
      if !ok || !twoSteps {
        return;
      }
      ghost var w1 := Work();
      ok := BuildFollowUp(seqId);
      if !ok {
        return;
      }
      PlainIsRead(w1, RequestParams(p, M.FOLLOW_UP, seqId, PtpTime(0, 0, 0)), size);
      ms := ms + [buf.data[..buf.len]];
      assert ms[1] == Sent(Work());
      ok := sent2;
    }

    /** client_main_rcvRespSync: the ingress times of the RESPONSEs, taken over in turn. */
    method RcvRespSync() returns (haveResp: bool)
      requires Valid() && Inside(buf.data[..], msg.tlvs)
      modifies r1
      ensures r1.Valid() && r1.ts == LastValid(old(r1.ts), IngressIn(buf.data[..], msg.tlvs))
      ensures haveResp == (IngressIn(buf.data[..], msg.tlvs) != [])
    {
      hide FromPtp, PtpAt, LastValid, IngressIn, Inside;
      haveResp := false;
      ghost var s, tlvs, t0 := buf.data[..], msg.tlvs, r1.ts;
      IngressEnds(s, tlvs, t0);
      for i := 0 to |msg.tlvs|
        invariant r1.Valid() && r1.ts == IngressTaken(s, tlvs, i, t0)
        invariant haveResp == HasIngress(s, tlvs, i)
      {
        var t := msg.tlvs[i];
        IngressMore(s, tlvs, i, t0);
        if t.id == CSPTP_RESPONSE {
          var _ := r1.FromTimestamp(PtpAt(buf.data[..], t.at + 10));
          haveResp := true;
        }
      }
    }

    /** A poll, and the checks on what it brings; the parameters of a message the client accepts. */
    method Accept(c: Cycle, ev: Poll) returns (p: Option<M.Params>)
      requires Valid() && c.size == buf.data.Length && c.service == address && Receivable(ev, c.size)
      modifies this`rxAddress, tmpTs, msg, buf, buf.data
      ensures Valid()
      ensures p.Some? <==> Hear(c, ev).Accepted()
      ensures p.Some? ==> Inside(buf.data[..], msg.tlvs) && (p.value.kind == M.SYNC || p.value.kind == M.FOLLOW_UP)
      ensures p.Some? && p.value.kind == M.SYNC ==>
        Hear(c, ev) == HeardSync(!p.value.useTwoSteps, p.value.timestamp, IngressIn(buf.data[..], msg.tlvs), tmpTs.ts)
      ensures p.Some? && p.value.kind != M.SYNC ==> Hear(c, ev) == HeardTime(p.value.timestamp)
    {
      hide M.Parse, M.ClaimsHeader, RequestFlagsIn, IngressIn, Inside;
      if !ev.Datagram? {
        return None;
      }
      ghost var stale, m := buf.data[..], Cut(ev.octets, buf.data.Length);
      ReadsAnywhere(m, stale[|m|..]);
      rxAddress := ev.from;
      tmpTs.FromTimespec(ev.rx);
      var received := Receive(buf, ev.octets);
      if !received {
        NothingRead(m);
        return None;
      }
      ghost var s := buf.data[..];
      ParsedInside(s, buf.len);
      p := msg.Parse(buf);
      if p.None? {
        return;
      }
      ParsedHeader(s, buf.len);
      if p.value.sequenceId != c.seqId || p.value.domainNumber != c.domain || rxAddress != address {
        return None;
      }
    }

    ghost function Waiting(loops: nat, wait: bv8, failed: bool, timeouts: nat): Wait
      reads r1, t2, r2
    {
      Wait(loops, wait & 1 != 0, wait & 2 != 0, failed, timeouts, r1.ts, t2.ts, r2.ts)
    }

    /** The switch on an accepted message, which is h; ok is false for a Sync without a RESPONSE. */
    method Take(p: M.Params, wait: bv8, ghost h: Heard, ghost loops: nat, ghost timeouts: nat) returns (left: bv8, ok: bool)
      requires Valid() && Inside(buf.data[..], msg.tlvs) && wait <= 3
      requires if p.kind == M.SYNC
        then h == HeardSync(!p.useTwoSteps, p.timestamp, IngressIn(buf.data[..], msg.tlvs), tmpTs.ts)
        else p.kind == M.FOLLOW_UP && h == HeardTime(p.timestamp)
      modifies r1, t2, r2
      ensures Valid() && left <= 3 && ok == !Bare(h)
      ensures Waiting(loops, left, !ok, timeouts) == Next(old(Waiting(loops, wait, false, timeouts)), h)
    {
      hide Inside, IngressIn, LastValid;
      BitsWait(wait);
      left, ok := wait, true;
      if p.kind == M.SYNC {
        left := left & 2;
        if !p.useTwoSteps {
          left := left & 1;
          LastValidOne(t2.ts, p.timestamp);
          var _ := t2.FromTimestamp(p.timestamp);
        }
        r2.Assign(tmpTs);
        ok := RcvRespSync();
      } else {
        left := left & 1;
        LastValidOne(t2.ts, p.timestamp);
        var _ := t2.FromTimestamp(p.timestamp);
      }
    }

    /** The body of the loop of client_main_flow. */
    method PollOnce(c: Cycle, ev: Poll, loops: nat, wait: bv8, timeouted: nat)
      returns (loops': nat, wait': bv8, timeouted': nat, early: bool)
      requires Valid() && c.size == buf.data.Length && c.service == address && Receivable(ev, c.size)
      requires loops > 0 && wait <= 3
      modifies this`rxAddress, tmpTs, msg, buf, buf.data, r1, t2, r2
      ensures Valid() && wait' <= 3
      ensures Waiting(loops', wait', early, timeouted') == Next(old(Waiting(loops, wait, false, timeouted)), Hear(c, ev))
      ensures ev.Timeout? ==> loops' < loops && !early
    {
      hide Hear, Inside, IngressIn, LastValid, Bare;
      loops', wait', timeouted', early := loops, wait, timeouted, false;
      PollHeard(c, ev);
      var p := Accept(c, ev);
      if p.Some? {
        var ok;
        wait', ok := Take(p.value, wait, Hear(c, ev), loops, timeouted);
        early := !ok;
      } else {
        loops' := loops - 1;
        if ev.Timeout? {
          timeouted' := timeouted + 1;
        }
      }
    }

    lemma WaitingOver(loops: nat, wait: bv8, failed: bool, timeouts: nat)
      requires wait <= 3
      ensures var w := Waiting(loops, wait, failed, timeouts);
        && w.loops == loops && w.failed == failed && w.timeouts == timeouts && (w.Done() <==> wait == 0)
        && w.r1 == r1.ts && w.t2 == t2.ts && w.r2 == r2.ts
    {
      BitsWait(wait);
    }

    /**
     The loop of client_main_flow on the polls evs: it stops after n polls,
     and not before, with the variables these polls give.
     */
    method WaitForResponse(c: Cycle, evs: seq<Poll>) returns (done: bool, early: bool, timeouted: nat, ghost n: nat)
      requires Valid() && c.size == buf.data.Length && c.service == address && Trace(evs, c.size)
      modifies this`rxAddress, tmpTs, msg, buf, buf.data, r1, t2, r2
      ensures Valid()
      ensures var w0, hs := Start(old(r1.ts), old(t2.ts), old(r2.ts)), HeardIn(c, evs, n);
        var w := After(w0, hs);
        && Goes(w0, hs) && w.Over()
        && timeouted == w.timeouts && early == w.failed && done == (w.Done() && !w.failed)
        && r1.ts == w.r1 && t2.ts == w.t2 && r2.ts == w.r2
      ensures Stops(c, evs, n) && forall k: nat :: k < n ==> !Stops(c, evs, k)
      ensures early == BareCame(c, evs, n) && done == (SyncCame(c, evs, n) && TimeCame(c, evs, n) && !early)
      ensures timeouted == TimeoutsIn(evs, n)
    {
      hide Hear, Goes, After, Next, HeardIn, Stops, BareCame, SyncCame, TimeCame, ClientState.Waiting;
      ghost var w0, hs := Start(r1.ts, t2.ts, r2.ts), [];
      var loops: nat, wait: bv8, i := WAIT_LOOP, 3, 0;
      timeouted, early, n := 0, false, 0;
      NoPolls(w0, c, evs);
      AtStart();
      while loops > 0 && wait > 0 && !early
        invariant Valid() && wait <= 3 && i == n == |hs| && hs == HeardIn(c, evs, n)
        invariant Waiting(loops, wait, early, timeouted) == After(w0, hs) && Goes(w0, hs)
        decreases if i < |evs| then |evs| - i else 0, loops, !early
      {
        WaitingOver(loops, wait, early, timeouted);
        var ev := if i < |evs| then evs[i] else Timeout;
        OnePollMore(w0, hs, Hear(c, ev), c, evs);
        hs := hs + [Hear(c, ev)];
        i, n := i + 1, n + 1;
        loops, wait, timeouted, early := PollOnce(c, ev, loops, wait, timeouted);
      }
      WaitingOver(loops, wait, early, timeouted);
      done := wait == 0 && !early;
      StandsAt(c, evs, n, w0.r1, w0.t2, w0.r2);
      StopsFirst(c, evs, n, w0.r1, w0.t2, w0.r2);
      NothingTaken(c, evs, n, w0.r1, w0.t2, w0.r2);
    }

    lemma AtStart()
      ensures Waiting(WAIT_LOOP, 3, false, 0) == Start(r1.ts, t2.ts, r2.ts)
    {
    }

    /**
     client_main_flow: sent1 and sent2 say whether the sends succeed.  The
     sequenceId moves on only when the flow gets past its polls: a failed
     send and the early return keep it.
     */
    method Flow(seqId: u16, domain: octet, twoSteps: bool, now: Timespec, sent1: bool, sent2: bool, evs: seq<Poll>)
      returns (ok: bool, nextId: u16, ms: seq<seq<octet>>, polled: bool, ghost n: nat)
      requires Valid() && now.Normal() && Trace(evs, buf.data.Length) && size <= buf.data.Length
      modifies this, buf, buf.data, msg, t1, r1, t2, r2, tmpTs
      ensures Valid() && t1.ts == now
      ensures ms == Requests(old(Work()), old(params), tlvReqFlags0, size, seqId, now, twoSteps, sent1)
      ensures polled == (|ms| == (if twoSteps then 2 else 1) && sent1 && (twoSteps ==> sent2))
      ensures !polled ==> !ok && nextId == seqId && r1.ts == old(r1.ts) && t2.ts == old(t2.ts) && r2.ts == old(r2.ts)
      ensures polled ==>
        var c, w0 := Cycle(seqId, domain, address, buf.data.Length), Start(old(r1.ts), old(t2.ts), old(r2.ts));
        var hs := HeardIn(c, evs, n);
        var w := After(w0, hs);
        && Goes(w0, hs) && w.Over() && r1.ts == w.r1 && t2.ts == w.t2 && r2.ts == w.r2
        && ok == (w.Done() && !w.failed)
        && nextId == (if w.failed then seqId else if seqId == 65535 then 1 else seqId + 1)
        && (!w.failed ==> tmpTs.ts.Nanos() == 1_000_000_000 - w.timeouts * 50_000_000)
    {
      hide Requests, After, Trace, HeardIn, Goes;
      n := 0;
      polled, ms := SendRequests(seqId, now, twoSteps, sent1, sent2);
      ok, nextId := false, seqId;
      if !polled {
        return;
      }
      var early, timeouted;
      ok, early, timeouted, n := WaitForResponse(Cycle(seqId, domain, address, buf.data.Length), evs);
      if early {
        return;
      }
      nextId := NextId(seqId);
      tmpTs.FromTimespec(Timespec(1, 0));
      FewTimeouts(Start(old(r1.ts), old(t2.ts), old(r2.ts)), HeardIn(Cycle(seqId, domain, address, buf.data.Length), evs, n));
      tmpTs.AddMilliseconds(-timeouted * POLL_MS);
    }
  }

  lemma BitsWait(wait: bv8)
    requires wait <= 3
    ensures wait & 2 <= 3 && wait & 2 & 1 == 0 && wait & 1 <= 3
    ensures (wait & 2) & 1 == 0 && ((wait & 2) & 2 != 0 <==> wait & 2 != 0)
    ensures (wait & 1) & 2 == 0 && ((wait & 1) & 1 != 0 <==> wait & 1 != 0)
    ensures wait == 0 <==> wait & 1 == 0 && wait & 2 == 0
  {
  }

  /** What a poll that brings no accepted message does to the loop. */
  lemma PollHeard(c: Cycle, ev: Poll)
    requires Receivable(ev, c.size)
    ensures var h := Hear(c, ev);
      && (ev.Timeout? ==> !h.Accepted())
      && forall w: Wait :: !h.Accepted() && w.loops > 0 ==>
        Next(w, h) == w.(loops := w.loops - 1, timeouts := w.timeouts + if ev.Timeout? then 1 else 0)
  {
  }

  lemma NothingRead(m: seq<octet>)
    requires M.ClaimsHeader(m, |m|) && m == []
    ensures Reads(m) == Unread
  {
  }

  /** r1 after the first i TLVs. */
  ghost function IngressTaken(s: seq<octet>, tlvs: seq<M.Tlv>, i: nat, t: Timespec): Timespec
    requires Inside(s, tlvs) && i <= |tlvs|
  {
    LastValid(t, IngressIn(s, tlvs[..i]))
  }

  ghost predicate HasIngress(s: seq<octet>, tlvs: seq<M.Tlv>, i: nat)
    requires Inside(s, tlvs) && i <= |tlvs|
  {
    IngressIn(s, tlvs[..i]) != []
  }

  lemma IngressEnds(s: seq<octet>, tlvs: seq<M.Tlv>, t: Timespec)
    requires Inside(s, tlvs)
    ensures IngressTaken(s, tlvs, 0, t) == t && !HasIngress(s, tlvs, 0)
    ensures IngressTaken(s, tlvs, |tlvs|, t) == LastValid(t, IngressIn(s, tlvs))
    ensures HasIngress(s, tlvs, |tlvs|) <==> IngressIn(s, tlvs) != []
  {
    assert tlvs[..|tlvs|] == tlvs && tlvs[..0] == [];
  }

  lemma IngressMore(s: seq<octet>, tlvs: seq<M.Tlv>, i: nat, t: Timespec)
    requires Inside(s, tlvs) && i < |tlvs|
    ensures tlvs[i].id == CSPTP_RESPONSE ==> tlvs[i].at + 20 <= |s|
    ensures tlvs[i].id != CSPTP_RESPONSE ==>
      IngressTaken(s, tlvs, i + 1, t) == IngressTaken(s, tlvs, i, t) && HasIngress(s, tlvs, i + 1) == HasIngress(s, tlvs, i)
    ensures tlvs[i].id == CSPTP_RESPONSE ==> HasIngress(s, tlvs, i + 1)
    ensures tlvs[i].id == CSPTP_RESPONSE ==>
      var p := FromPtp(PtpAt(s, tlvs[i].at + 10));
      IngressTaken(s, tlvs, i + 1, t) == if p.Some? then p.value else IngressTaken(s, tlvs, i, t)
  {
    hide FromPtp, LastValid;
    assert tlvs[..i + 1][..i] == tlvs[..i];
    if tlvs[i].id == CSPTP_RESPONSE {
      LastValidMore(t, IngressIn(s, tlvs[..i]), PtpAt(s, tlvs[i].at + 10));
    } else {
      assert IngressIn(s, tlvs[..i + 1]) == IngressIn(s, tlvs[..i]);
    }
  }

  lemma {:induction false} FewTimeouts(w: Wait, hs: seq<Heard>)
    requires Goes(w, hs)
    ensures After(w, hs).timeouts + After(w, hs).loops <= w.timeouts + w.loops
  {
    if hs != [] {
      FewTimeouts(w, hs[..|hs| - 1]);
    }
  }

  lemma NoPolls(w: Wait, c: Cycle, evs: seq<Poll>)
    requires Trace(evs, c.size)
    ensures Goes(w, []) && After(w, []) == w && HeardIn(c, evs, 0) == []
  {
  }

  lemma OnePollMore(w: Wait, hs: seq<Heard>, h: Heard, c: Cycle, evs: seq<Poll>)
    requires Goes(w, hs) && !After(w, hs).Over()
    requires Trace(evs, c.size) && hs == HeardIn(c, evs, |hs|) && h == Hear(c, PollAt(evs, |hs|))
    ensures Goes(w, hs + [h]) && After(w, hs + [h]) == Next(After(w, hs), h)
    ensures hs + [h] == HeardIn(c, evs, |hs| + 1)
  {
    hide Hear, Next;
    assert (hs + [h])[..|hs|] == hs;
  }

  lemma ClientSizeFits(status: bool, altTime: bool, family: u16)
    requires family == UDP_IPV4 || family == UDP_IPV6
    ensures ClientSize(status, altTime, family) <= 176
  {
    hide SmoothSize;
    var m := SmoothSizeIsLeast(MsgSize(status, altTime, family));
  }
}
