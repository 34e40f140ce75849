/** What arrives succeeds: an attempt whose messages get through, in any order and with idle polls in between. */
module Delivery {
  import opened Octets
  import opened Time
  import opened Dialogue
  import opened Network
  import opened Exchange
  import opened Exactness
  import C = Client

  /** The client is in its attempt, after so many idle polls, and what it still waits for is on its way. */
  predicate Pending(g: Config, v: World, first: nat, sync: bool, follow: bool, idle: nat) {
    && v.running && v.wait.loops + idle == C.WAIT_LOOP && idle < C.WAIT_LOOP
    && v.wait.sync == sync && v.wait.time == (if g.responseTwoSteps then follow else sync)
    && (sync ==> first in v.down && IsSync(v.down[first]) && Id(v.down[first].cycle) == v.seqId)
    && (follow ==>
          g.responseTwoSteps && first + 1 in v.down && !IsSync(v.down[first + 1]) && Id(v.down[first + 1].cycle) == v.seqId)
  }

  /**
   Polls that bring what the client waits for: the response, and the
   Follow_Up if there is one, each once and in either order, and up to 49
   polls that bring nothing or something from elsewhere.
   */
  predicate Arrives(g: Config, polls: seq<Action>, first: nat, sync: bool, follow: bool, idle: nat) {
    if polls == [] then !sync && !follow
    else
      match polls[0]
      case Hear(id, rx) =>
        && rx.Normal()
        && if sync && id == first then Arrives(g, polls[1..], first, false, follow, idle)
           else follow && id == first + 1 && Arrives(g, polls[1..], first, sync, false, idle)
      case Other(ev) =>
        && (sync || follow) && idle + 1 < C.WAIT_LOOP
        && C.Receivable(ev, g.Size()) && (ev.Datagram? ==> ev.from != g.service)
        && Arrives(g, polls[1..], first, sync, follow, idle + 1)
      case _ => false
  }

  /** One poll. */
  lemma PollPends(g: Config, v: World, polls: seq<Action>, first: nat, sync: bool, follow: bool, idle: nat)
    returns (sync': bool, follow': bool, idle': nat)
    requires g.Valid() && Inv(g, v) && Pending(g, v, first, sync, follow, idle)
    requires polls != [] && Arrives(g, polls, first, sync, follow, idle)
    ensures AllParsable(g, v) && Enabled(g, v, polls[0]) && Inv(g, Act(g, v, polls[0]))
    ensures Pending(g, Act(g, v, polls[0]), first, sync', follow', idle')
    ensures Arrives(g, polls[1..], first, sync', follow', idle')
  {
    hide Inv, Act, IsSync, Id, Pending, C.Receivable, AllParsable;
    sync', follow', idle' := sync, follow, idle;
    match polls[0]
    case Hear(id, rx) =>
      if sync && id == first {
        sync' := false;
      } else {
        follow' := false;
      }
      HearPends(g, v, first, sync, follow, idle, id, rx);
    case Other(ev) =>
      OtherPends(g, v, first, sync, follow, idle, ev);
      idle' := idle + 1;
  }

  lemma HearPends(g: Config, v: World, first: nat, sync: bool, follow: bool, idle: nat, id: nat, rx: Timespec)
    requires g.Valid() && Inv(g, v) && Pending(g, v, first, sync, follow, idle) && rx.Normal()
    requires (sync && id == first) || (follow && id == first + 1)
    ensures AllParsable(g, v) && Enabled(g, v, Hear(id, rx)) && Inv(g, Act(g, v, Hear(id, rx)))
    ensures var u := Act(g, v, Hear(id, rx));
      if sync && id == first then Pending(g, u, first, false, follow, idle) else Pending(g, u, first, sync, false, idle)
  {
    hide Inv, IsSync, Id, Act, AllParsable;
    NotOver(g, v);
    HearTaken(g, v, id, rx);
  }

  lemma NotOver(g: Config, v: World)
    requires Inv(g, v) && v.running
    ensures !v.wait.failed
  {
    hide UpOk, DownOk;
    NotFailed(g, v);
  }

  lemma OtherPends(g: Config, v: World, first: nat, sync: bool, follow: bool, idle: nat, ev: Poll)
    requires g.Valid() && Inv(g, v) && Pending(g, v, first, sync, follow, idle) && (sync || follow)
    requires idle + 1 < C.WAIT_LOOP && C.Receivable(ev, g.Size()) && (ev.Datagram? ==> ev.from != g.service)
    ensures AllParsable(g, v) && Enabled(g, v, Other(ev)) && Inv(g, Act(g, v, Other(ev)))
    ensures Pending(g, Act(g, v, Other(ev)), first, sync, follow, idle + 1)
  {
    hide Inv, IsSync, Id, C.Receivable, C.Hear, C.Next;
    NotOver(g, v);
    StepKeeps(g, v, Other(ev));
    IdlePoll(g, v, ev);
  }

  lemma IdlePoll(g: Config, v: World, ev: Poll)
    requires C.Receivable(ev, g.Size()) && (ev.Datagram? ==> ev.from != g.service)
    ensures var w := C.Next(v.wait, C.Hear(Cycle(g, v), ev));
      w.sync == v.wait.sync && w.time == v.wait.time && (v.wait.loops > 0 ==> w.loops == v.wait.loops - 1)
  {
    hide Reads;
    ElsewhereIgnored(g, v, ev);
  }

  lemma {:induction false} ArrivesDone(
    g: Config, v: World, polls: seq<Action>, first: nat, sync: bool, follow: bool, idle: nat) returns (ws: seq<World>)
    requires g.Valid() && Inv(g, v) && Pending(g, v, first, sync, follow, idle)
    requires Arrives(g, polls, first, sync, follow, idle)
    ensures Walk(g, Quiet, ws, polls) && ws[0] == v && ws[|ws| - 1].running && ws[|ws| - 1].wait.Done()
    decreases |polls|
  {
    hide Inv, Act, IsSync, Id, Enabled, AllParsable;
    if polls == [] {
      ws := [v];
    } else {
      var s, f, i := PollPends(g, v, polls, first, sync, follow, idle);
      var us := ArrivesDone(g, Act(g, v, polls[0]), polls[1..], first, s, f, i);
      ArrivingIsQuiet(g, v, polls, first, sync, follow, idle);
      WalkMore(g, Quiet, v, polls[0], us, polls[1..]);
      ws := [v] + us;
      assert [polls[0]] + polls[1..] == polls;
    }
  }

  lemma ArrivingIsQuiet(g: Config, v: World, polls: seq<Action>, first: nat, sync: bool, follow: bool, idle: nat)
    requires g.Valid() && polls != [] && Arrives(g, polls, first, sync, follow, idle) && Enabled(g, v, polls[0])
    ensures Obeys(g, Quiet, v, polls[0])
  {
  }

  /**
   Whatever came before: an attempt whose request reaches the service and
   whose answers reach the client is done, in whatever order they come and
   with up to 49 idle polls in between; and with a fresh sequenceId the times
   are its own.
   */
  lemma DeliveredAttempt(g: Config, w: World, a: Action, stale: seq<octet>, rx: Timespec, tx: Timespec, polls: seq<Action>)
    returns (ws: seq<World>)
    requires g.Valid() && Inv(g, w) && Tellable(g.clk, g.Flags())
    requires AllParsable(g, w) && a.Begin? && Enabled(g, w, a) && ToPtp(a.now).Some? && a.sent1 && a.sent2
    requires |stale| == SERVICE_BUFFER && ToPtp(rx).Some? && ToPtp(tx).Some?
    requires Arrives(g, polls, Act(g, w, a).next, true, g.responseTwoSteps, 0)
    ensures Path(g, ws, [a, Serve(w.next, stale, rx, tx)] + polls) && ws[0] == w
    ensures ws[|ws| - 1].running && ws[|ws| - 1].wait.Done()
    ensures Fresh(w) ==> Own(ws[|ws| - 1])
  {
    hide Inv, OwnOk, IsSync, Id, Tellable, Act, Starts, Fresh, Own, ToPtp, Answered, Waits, Arrives, Pending, AllParsable;
    NormalTimes(rx, tx);
    AsksStarts(g, w, a);
    Started(g, w, a);
    var v, b := Act(g, w, a), Serve(w.next, stale, rx, tx);
    AllParse(g, v);
    WaitsForBoth(g, w, a);
    ServeAnswered(g, v, w.next, stale, rx, tx);
    StepKeeps(g, v, b);
    var u := Act(g, v, b);
    AnswersPend(g, v, w.next, Served(rx, tx), u);
    var us := ArrivesDone(g, u, polls, v.next, true, g.responseTwoSteps, 0);
    ws := [w, v] + us;
    TwoBefore(g, w, a, v, b, us, polls);
    if Fresh(w) {
      StepKeepsOwn(g, w, a);
      FreshFrom(g, us, polls);
      ServeKeeps(g, v, b);
      PathKeeps(g, us, polls, |us| - 1);
      OwnIs(us[|us| - 1]);
    }
  }

  lemma AllParse(g: Config, v: World)
    requires Inv(g, v)
    ensures AllParsable(g, v)
  {
    InvParsable(g, v);
  }

  lemma TwoBefore(g: Config, w: World, a: Action, v: World, b: Action, us: seq<World>, polls: seq<Action>)
    requires g.Valid() && Walk(g, Quiet, us, polls) && Step(g, w, a, v) && Step(g, v, b, us[0])
    ensures Path(g, [w, v] + us, [a, b] + polls) && ([w, v] + us)[|us| + 1] == us[|us| - 1]
  {
    hide Step, Obeys;
    QuietWalk(g, us, polls);
    var ws, acts := [w, v] + us, [a, b] + polls;
    forall k {:trigger acts[k]} | 0 <= k < |acts|
      ensures Step(g, ws[k], acts[k], ws[k + 1])
    {
      if k >= 2 {
        assert acts[k] == polls[k - 2] && ws[k] == us[k - 2] && ws[k + 1] == us[k - 1];
      }
    }
  }

  lemma NormalTimes(rx: Timespec, tx: Timespec)
    requires ToPtp(rx).Some? && ToPtp(tx).Some?
    ensures rx.Normal() && tx.Normal()
  {
  }

  lemma AsksStarts(g: Config, w: World, a: Action)
    requires g.Valid() && a.Begin? && Enabled(g, w, a) && ToPtp(a.now).Some? && a.sent1 && a.sent2
    ensures Starts(g, w, a)
  {
    hide Asks;
    AsksAll(g, w, a.work, a.now, true);
  }

  lemma WaitsForBoth(g: Config, w: World, a: Action)
    requires g.Valid() && Enabled(g, w, a) && AllParsable(g, w) && Starts(g, w, a) && Waits(Act(g, w, a), w.next)
    ensures var v := Act(g, w, a);
      && v.running && v.wait.sync && v.wait.time && v.wait.loops == C.WAIT_LOOP
      && w.next in v.up && IsSync(v.up[w.next]) && Id(v.up[w.next].cycle) == v.seqId
  {
    hide Asks, Join, IsSync, Id;
  }

  lemma AnswersPend(g: Config, v: World, id: nat, s: Served, u: World)
    requires Answered(g, v, id, s, u) && Id(v.up[id].cycle) == v.seqId
    requires v.running && v.wait.sync && v.wait.time && v.wait.loops == C.WAIT_LOOP
    ensures Pending(g, u, v.next, true, g.responseTwoSteps, 0)
  {
    hide IsSync, Id;
  }

  lemma QuietWalk(g: Config, ws: seq<World>, polls: seq<Action>)
    requires g.Valid() && Walk(g, Quiet, ws, polls)
    ensures Path(g, ws, polls)
  {
    hide Step, Obeys;
  }

  lemma FreshFrom(g: Config, ws: seq<World>, polls: seq<Action>)
    requires g.Valid() && Walk(g, Quiet, ws, polls)
    ensures FreshUntil(g, ws, polls, |ws| - 1)
  {
    hide Act, Fresh;
    forall i {:trigger polls[i]} | 0 <= i < |polls|
      ensures Enabled(g, ws[i], polls[i]) && !polls[i].Begin?
    {
      assert Step(g, ws[i], polls[i], ws[i + 1]) && Obeys(g, Quiet, ws[i], polls[i]);
    }
  }
}
