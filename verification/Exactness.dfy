/**
 When an attempt has its own times, exactly: the runs in which it does, and a
 run in which it does not wherever the condition fails.
 */
module Exactness {
  import opened Octets
  import opened Time
  import opened Sizes
  import opened Dialogue
  import opened Network
  import opened Exchange
  import M = Message
  import C = Client
  import S = Service

  /** Fewer than so many sequenceIds were used up since any message in flight was made. */
  predicate Within(w: World, cycles: nat) {
    && (forall i :: i in w.up ==> w.cycle < w.up[i].cycle + cycles)
    && (forall i :: i in w.down ==> w.cycle < w.down[i].cycle + cycles)
  }

  /**
   What a run may do: begin nothing; begin to poll only with a fresh
   sequenceId; begin only while all messages in flight are recent; and never
   send half a request besides.
   */
  datatype Rule = Quiet | UseFresh | Recent(cycles: nat) | Whole(cycles: nat)

  predicate Obeys(g: Config, rule: Rule, w: World, a: Action)
    requires g.Valid() && Enabled(g, w, a)
  {
    match rule
    case Quiet => !a.Begin?
    case UseFresh => Starts(g, w, a) ==> Fresh(w)
    case Recent(cycles) => a.Begin? ==> Within(w, cycles)
    case Whole(cycles) => a.Begin? ==> Within(w, cycles) && !HalfSent(g, w, a)
  }

  /** A path that keeps to the rule. */
  predicate Walk(g: Config, rule: Rule, ws: seq<World>, actions: seq<Action>)
    requires g.Valid()
  {
    && Path(g, ws, actions)
    && forall k {:trigger actions[k]} :: 0 <= k < |actions| ==> Obeys(g, rule, ws[k], actions[k])
  }

  /** Wherever a walk from v leads, what the client is done with is its own. */
  ghost predicate Safe(g: Config, rule: Rule, v: World)
    requires g.Valid()
  {
    forall ws, actions :: Walk(g, rule, ws, actions) && ws[0] == v ==> Own(ws[|ws| - 1])
  }

  /** The client is done, with a time the service did not have of this attempt. */
  predicate Foreign(w: World) {
    w.running && w.wait.Done() &&
    (w.attempt in w.served ==> w.wait.r1 != w.served[w.attempt].rx || w.wait.t2 != w.served[w.attempt].tx)
  }

  ghost predicate Unsafe(g: Config, rule: Rule, v: World)
    requires g.Valid()
  {
    exists ws, actions :: Walk(g, rule, ws, actions) && ws[0] == v && Foreign(ws[|ws| - 1])
  }

  lemma UnsafeIsNotSafe(g: Config, rule: Rule, v: World)
    requires g.Valid() && Unsafe(g, rule, v)
    ensures !Safe(g, rule, v)
  {
    hide Own, Foreign, Step, Obeys;
    ForeignIsNotOwn();
    var ws, actions :| Walk(g, rule, ws, actions) && ws[0] == v && Foreign(ws[|ws| - 1]);
  }

  lemma ForeignIsNotOwn()
    ensures forall w :: Foreign(w) ==> !Own(w)
  {
  }

  lemma UnsafeNow(g: Config, rule: Rule, v: World)
    requires g.Valid() && Foreign(v)
    ensures Unsafe(g, rule, v)
  {
    hide Foreign;
    var ws, actions: seq<Action> := [v], [];
    assert Walk(g, rule, ws, actions);
  }

  lemma UnsafeStep(g: Config, rule: Rule, v: World, a: Action)
    requires g.Valid() && Inv(g, v) && Enabled(g, v, a) && Obeys(g, rule, v, a) && AllParsable(g, v)
    requires Unsafe(g, rule, Act(g, v, a))
    ensures Unsafe(g, rule, v)
  {
    hide Foreign, Act, Inv, Enabled, Obeys, AllParsable, Step;
    var ws, actions :| Walk(g, rule, ws, actions) && ws[0] == Act(g, v, a) && Foreign(ws[|ws| - 1]);
    WalkMore(g, rule, v, a, ws, actions);
    assert ([v] + ws)[|ws|] == ws[|ws| - 1];
  }

  lemma WalkMore(g: Config, rule: Rule, v: World, a: Action, ws: seq<World>, actions: seq<Action>)
    requires g.Valid() && Walk(g, rule, ws, actions) && Enabled(g, v, a) && AllParsable(g, v)
    requires ws[0] == Act(g, v, a) && Obeys(g, rule, v, a)
    ensures Walk(g, rule, [v] + ws, [a] + actions)
  {
    hide Act, Enabled, Obeys, AllParsable;
    var us, as' := [v] + ws, [a] + actions;
    forall k {:trigger as'[k]} | 0 <= k < |as'|
      ensures Step(g, us[k], as'[k], us[k + 1]) && Obeys(g, rule, us[k], as'[k])
    {
      if k > 0 {
        assert as'[k] == actions[k - 1];
        assert us[k] == ws[k - 1] && us[k + 1] == ws[k];
      }
    }
  }

  /** A walk that begins nothing keeps to every rule. */
  lemma QuietUnsafe(g: Config, rule: Rule, v: World)
    requires g.Valid() && Unsafe(g, Quiet, v)
    ensures Unsafe(g, rule, v)
  {
    hide Foreign, Act, Enabled, Fresh, HalfSent, Within;
    var ws, actions :| Walk(g, Quiet, ws, actions) && ws[0] == v && Foreign(ws[|ws| - 1]);
    forall k {:trigger actions[k]} | 0 <= k < |actions|
      ensures Step(g, ws[k], actions[k], ws[k + 1]) && Obeys(g, rule, ws[k], actions[k])
    {
      QuietObeys(g, rule, ws[k], actions[k], ws[k + 1]);
    }
    assert Walk(g, rule, ws, actions);
  }

  lemma QuietObeys(g: Config, rule: Rule, w: World, a: Action, v: World)
    requires g.Valid() && Step(g, w, a, v) && Obeys(g, Quiet, w, a)
    ensures Obeys(g, rule, w, a)
  {
    hide Fresh, Within, Act;
  }

  // Safe with fresh sequenceIds, from any world of any run.

  lemma FreshIsSafe(g: Config, v: World)
    requires g.Valid() && Inv(g, v) && OwnOk(v)
    ensures Safe(g, UseFresh, v)
  {
    hide Inv, OwnOk, Own, Act, Enabled, Fresh, Starts;
    forall ws, actions | Walk(g, UseFresh, ws, actions) && ws[0] == v
      ensures Own(ws[|ws| - 1])
    {
      forall i {:trigger actions[i]} | 0 <= i < |actions| && Starts(g, ws[i], actions[i])
        ensures Fresh(ws[i])
      {
        assert Obeys(g, UseFresh, ws[i], actions[i]);
      }
      PathKeeps(g, ws, actions, |ws| - 1);
      OwnIs(ws[|ws| - 1]);
    }
  }

  // Unsafe otherwise.

  const T1 := Timespec(1, 0)
  const T2 := Timespec(2, 0)

  function Another(t: Timespec): Timespec {
    if t == T1 then T2 else T1
  }

  lemma TimesFit(t: Timespec)
    ensures ToPtp(T1).Some? && ToPtp(Another(t)).Some? && T1.Normal() && Another(t).Normal() && Another(t) != t
  {
  }

  const STALE: seq<octet> := seq(SERVICE_BUFFER, _ => 0)

  /** What serving the request id at these times puts on the network. */
  predicate Answered(g: Config, v: World, id: nat, s: Served, u: World) {
    && id in v.up && u.up == v.up - {id}
    && u == v.(up := u.up, down := u.down, next := u.next, served := v.served[v.up[id].attempt := s])
    && (forall i :: i in v.down ==> i in u.down && u.down[i] == v.down[i])
    && v.next in u.down && IsSync(u.down[v.next])
    && u.down[v.next].attempt == v.up[id].attempt && u.down[v.next].cycle == v.up[id].cycle
    && (g.responseTwoSteps ==>
          && v.next + 1 in u.down && !IsSync(u.down[v.next + 1])
          && u.down[v.next + 1].attempt == v.up[id].attempt && u.down[v.next + 1].cycle == v.up[id].cycle)
  }

  lemma ServeAnswered(g: Config, v: World, id: nat, stale: seq<octet>, rx: Timespec, tx: Timespec)
    requires g.Valid() && Enabled(g, v, Serve(id, stale, rx, tx)) && AllParsable(g, v)
    requires Inv(g, v) && IsSync(v.up[id]) && Tellable(g.clk, g.Flags()) && ToPtp(rx).Some? && ToPtp(tx).Some?
    ensures Answered(g, v, id, Served(rx, tx), Act(g, v, Serve(id, stale, rx, tx)))
  {
    hide DownOk, FlowOk, IsSync, Answer, Id, ToPtp, S.Serve, Join, Tellable, Request, M.ClaimsHeader, Reads;
    ClientSizeFits(g);
    UpRequest(g, v, id);
    var p := v.up[id];
    ServeMessages(g, p, stale, rx, tx);
    RequestAnswered(g, p, stale, rx, tx);
    DownBelow(g, v);
    Joined(v.down, v.next, p.attempt, p.cycle, S.Serve(p.data, stale, g.clk, rx, tx, g.responseTwoSteps, true));
  }

  lemma DownBelow(g: Config, v: World)
    requires DownOk(g, v)
    ensures forall i :: i in v.down ==> i < v.next
  {
    hide Answer;
  }

  lemma RequestAnswered(g: Config, p: Packet, stale: seq<octet>, rx: Timespec, tx: Timespec)
    requires g.Valid() && Request(g, p) && IsSync(p) && |stale| == SERVICE_BUFFER && |p.data| <= SERVICE_BUFFER
    requires ToPtp(rx).Some? && ToPtp(tx).Some? && Tellable(g.clk, g.Flags())
    ensures M.ClaimsHeader(Cut(p.data, |stale|), |Cut(p.data, |stale|)|)
    ensures |S.Serve(p.data, stale, g.clk, rx, tx, g.responseTwoSteps, true)| == if g.responseTwoSteps then 2 else 1
  {
    hide Reads, M.ClaimsHeader, S.Serve, ToPtp, Tellable, RespSize, SmoothSize, ClientSize;
    assert Cut(p.data, |stale|) == p.data;
    ClientSizes(g.status, g.altTime, g.family);
    S.ServeAnswers(p.data, stale, g.clk, rx, tx, g.responseTwoSteps);
  }

  /** The client polls for both, and its own request has not reached the service yet. */
  predicate Waits(v: World, own: nat) {
    && v.running && v.wait.sync && v.wait.time && v.wait.loops > 0
    && own in v.up && IsSync(v.up[own]) && v.up[own].attempt == v.attempt && Id(v.up[own].cycle) == v.seqId
  }

  /** A stale response is taken for the client's own. */
  lemma StaleSync(g: Config, v: World, own: nat, j: nat)
    requires g.Valid() && Inv(g, v) && Tellable(g.clk, g.Flags()) && Waits(v, own)
    requires j in v.down && IsSync(v.down[j]) && Id(v.down[j].cycle) == v.seqId && v.down[j].attempt != v.attempt
    ensures Unsafe(g, Quiet, v)
  {
    hide IsSync, Id, Answer, UpOk, DownOk, FlowOk, C.Hear, C.Next, C.Receivable, ToPtp, Tellable, Parsable, Unsafe;
    NotFailed(g, v);
    TimesFit(T1);
    HearTaken(g, v, j, T1);
    var s := v.served[v.down[j].attempt];
    var a1 := Hear(j, T1);
    var u1 := Act(g, v, a1);
    UpRequest(g, v, own);
    if !g.responseTwoSteps {
      UnsafeNow(g, Quiet, u1);
    } else {
      StaleIngress(g, u1, own, s.rx);
    }
    UnsafeStep(g, Quiet, v, a1);
  }

  /** With a stale r1, the client's own Follow_Up makes it done. */
  lemma StaleIngress(g: Config, v: World, own: nat, rx: Timespec)
    requires g.Valid() && Inv(g, v) && Tellable(g.clk, g.Flags()) && g.responseTwoSteps
    requires v.running && !v.wait.sync && v.wait.time && v.wait.loops > 0 && v.wait.r1 == rx
    requires own in v.up && IsSync(v.up[own]) && v.up[own].attempt == v.attempt && Id(v.up[own].cycle) == v.seqId
    ensures Unsafe(g, Quiet, v)
  {
    hide IsSync, Id, Answer, UpOk, DownOk, FlowOk, ToPtp, Tellable, Parsable, Unsafe, Act;
    NotFailed(g, v);
    InvParsable(g, v);
    var t := Another(rx);
    TimesFit(rx);
    var a2, a3 := Serve(own, STALE, t, t), Hear(v.next + 1, T1);
    ServeAnswered(g, v, own, STALE, t, t);
    StepKeeps(g, v, a2);
    var u := Act(g, v, a2);
    HearTaken(g, u, v.next + 1, T1);
    UnsafeNow(g, Quiet, Act(g, u, a3));
    UnsafeStep(g, Quiet, u, a3);
    UnsafeStep(g, Quiet, v, a2);
  }

  /** What hearing an answer with its sequenceId does to a client that polls. */
  lemma HearTaken(g: Config, v: World, j: nat, rx: Timespec)
    requires g.Valid() && Inv(g, v) && v.running && !v.wait.Over() && rx.Normal()
    requires j in v.down && Id(v.down[j].cycle) == v.seqId
    ensures AllParsable(g, v) && Enabled(g, v, Hear(j, rx)) && v.down[j].attempt in v.served
    ensures var u, p, s := Act(g, v, Hear(j, rx)), v.down[j], v.served[v.down[j].attempt];
      && Inv(g, u) && AllParsable(g, u)
      && u == v.(wait := u.wait, polls := u.polls, down := v.down - {j}, heard := u.heard)
      && u.wait.loops == v.wait.loops && !u.wait.failed
      && (if IsSync(p) then
            u.wait.r1 == s.rx && !u.wait.sync
            && (if g.responseTwoSteps then u.wait.t2 == v.wait.t2 && u.wait.time == v.wait.time else !u.wait.time)
          else
            u.wait.t2 == s.tx && !u.wait.time && u.wait.r1 == v.wait.r1 && u.wait.sync == v.wait.sync && g.responseTwoSteps)
  {
    hide IsSync, Id, Answer, UpOk, DownOk, FlowOk, C.Hear, C.Next, C.Receivable, Parsable;
    InvParsable(g, v);
    DownAnswer(g, v, j);
    TakenById(g, v, v.down[j], v.served[v.down[j].attempt], rx);
    StepKeeps(g, v, Hear(j, rx));
    InvParsable(g, Act(g, v, Hear(j, rx)));
    NotFailed(g, Act(g, v, Hear(j, rx)));
  }

  /** A stale Follow_Up is taken for the client's own. */
  lemma StaleFollowUp(g: Config, v: World, own: nat, j: nat)
    requires g.Valid() && Inv(g, v) && Tellable(g.clk, g.Flags()) && Waits(v, own)
    requires j in v.down && !IsSync(v.down[j]) && Id(v.down[j].cycle) == v.seqId && v.down[j].attempt != v.attempt
    ensures Unsafe(g, Quiet, v)
  {
    hide IsSync, Id, Answer, UpOk, DownOk, FlowOk, C.Hear, C.Next, C.Receivable, ToPtp, Tellable, Parsable, Unsafe;
    NotFailed(g, v);
    TimesFit(T1);
    HearTaken(g, v, j, T1);
    var s := v.served[v.down[j].attempt];
    var a1 := Hear(j, T1);
    var u1 := Act(g, v, a1);
    UpRequest(g, v, own);
    var t := Another(s.tx);
    TimesFit(s.tx);
    var a2 := Serve(own, STALE, t, t);
    ServeAnswered(g, u1, own, STALE, t, t);
    StepKeeps(g, u1, a2);
    var u2 := Act(g, u1, a2);
    InvParsable(g, u2);
    HearTaken(g, u2, u1.next, T1);
    var a3 := Hear(u1.next, T1);
    UnsafeNow(g, Quiet, Act(g, u2, a3));
    UnsafeStep(g, Quiet, u2, a3);
    UnsafeStep(g, Quiet, u1, a2);
    UnsafeStep(g, Quiet, v, a1);
  }

  /** A stale request is answered, and the answer taken for the client's own. */
  lemma StaleRequest(g: Config, v: World, own: nat, i: nat)
    requires g.Valid() && Inv(g, v) && Tellable(g.clk, g.Flags()) && Waits(v, own)
    requires i in v.up && IsSync(v.up[i]) && Id(v.up[i].cycle) == v.seqId && v.up[i].attempt != v.attempt
    ensures Unsafe(g, Quiet, v)
  {
    hide IsSync, Id, UpOk, DownOk, FlowOk, ToPtp, Tellable, Unsafe, Act, AllParsable;
    TimesFit(T1);
    var a := Serve(i, STALE, T1, T1);
    InvParsable(g, v);
    ServeAnswered(g, v, i, STALE, T1, T1);
    StepKeeps(g, v, a);
    StaleSync(g, Act(g, v, a), own, v.next);
    UnsafeStep(g, Quiet, v, a);
  }

  /** Beginning to poll: the client's own request is on its way, and everything else still is. */
  lemma Started(g: Config, w: World, a: Action)
    requires g.Valid() && Inv(g, w) && AllParsable(g, w) && Enabled(g, w, a) && Starts(g, w, a)
    ensures var v := Act(g, w, a);
      && Inv(g, v) && Waits(v, w.next) && v.attempt == w.attempt && v.seqId == w.seqId && v.cycle == w.cycle
      && v.down == w.down && v.wait == v.start
      && (forall i :: i in w.up ==> i in v.up && v.up[i] == w.up[i])
      && (forall i :: i in v.up && i !in w.up ==> v.up[i].cycle == w.cycle)
  {
    hide Asks, UpOk, DownOk, FlowOk, Join, IsSync, Request, Id;
    var out := Sends(Asks(g, w, a.work, a.now, a.sent1), a.sent1, a.sent2);
    AskMessages(g, w, a.work, a.now, a.sent1);
    Below(g, w);
    Joined(w.up, w.next, w.attempt, w.cycle, out);
    StepKeeps(g, w, a);
  }

  /**
   Exactly when it is safe to begin: from any world that a run can lead to,
   with any sends having failed before, what the client gets to be done with
   is its own, wherever things go, if and only if no request that may still
   be answered, and no answer, bears the sequenceId it begins with.
   */
  lemma FreshIsExact(g: Config, w: World, a: Action)
    requires g.Valid() && Inv(g, w) && AllParsable(g, w) && Enabled(g, w, a) && Starts(g, w, a)
    requires Tellable(g.clk, g.Flags())
    ensures Safe(g, UseFresh, Act(g, w, a)) <==> Fresh(w)
  {
    hide Asks, UpOk, DownOk, FlowOk, OwnOk, IsSync, Id, Tellable, Safe, Unsafe, Act, Waits, Starts;
    var v := Act(g, w, a);
    Started(g, w, a);
    if Fresh(w) {
      StepKeepsOwn(g, w, a);
      FreshIsSafe(g, v);
    } else {
      NotRunning(g, w, a);
      Below(g, w);
      if i :| i in w.up && IsSync(w.up[i]) && Id(w.up[i].cycle) == w.seqId {
        StaleRequest(g, v, w.next, i);
      } else {
        var j :| j in w.down && Id(w.down[j].cycle) == w.seqId;
        if IsSync(w.down[j]) {
          StaleSync(g, v, w.next, j);
        } else {
          StaleFollowUp(g, v, w.next, j);
        }
      }
      QuietUnsafe(g, UseFresh, v);
      UnsafeIsNotSafe(g, UseFresh, v);
    }
  }

  lemma NotRunning(g: Config, w: World, a: Action)
    requires g.Valid() && Enabled(g, w, a) && Starts(g, w, a)
    ensures !w.running && a.Begin?
  {
  }

  lemma StepKeepsOwn(g: Config, w: World, a: Action)
    requires g.Valid() && Inv(g, w) && Enabled(g, w, a) && AllParsable(g, w) && Starts(g, w, a) && Fresh(w)
    ensures OwnOk(Act(g, w, a))
  {
    hide Asks, UpOk, DownOk, FlowOk, IsSync, Id, Fresh;
    BeginKeeps(g, w, a);
  }

  // Runs that never send half a request.

  /** What is in flight bears sequenceIds that are used up, or the one of the attempt that polls. */
  predicate Apart(w: World) {
    && (forall i :: i in w.up ==> w.up[i].cycle < w.cycle || (w.running && w.up[i].cycle == w.cycle))
    && (forall i :: i in w.down ==> w.down[i].cycle < w.cycle || (w.running && w.down[i].cycle == w.cycle))
  }

  lemma ApartIsFresh(w: World)
    requires Apart(w) && Within(w, 0xffff) && !w.running && w.seqId == Id(w.cycle)
    ensures Fresh(w)
  {
    hide IsSync, Id;
    forall c: nat | c < w.cycle < c + 0xffff
      ensures Id(c) != Id(w.cycle)
    {
      IdsDiffer(c, w.cycle);
    }
  }

  lemma IdsDiffer(c: nat, d: nat)
    requires c < d < c + 0xffff
    ensures Id(c) != Id(d)
  {
  }

  lemma StepApart(g: Config, w: World, a: Action)
    requires g.Valid() && Enabled(g, w, a) && AllParsable(g, w) && Inv(g, w) && Apart(w)
    requires a.Begin? ==> !HalfSent(g, w, a)
    ensures Apart(Act(g, w, a))
  {
    hide UpOk, DownOk, C.Hear, C.Next, C.Receivable, S.Serve, Parsable, ToPtp, Apart, Join, Asks, HalfSent;
    match a
    case Begin(_, _, _, _) => BeginApart(g, w, a);
    case Serve(_, _, _, _) => ServeApart(g, w, a);
    case Finish =>
      NotFailed(g, w);
      FewerApart(w, Act(g, w, a));
    case _ => FewerApart(w, Act(g, w, a));
  }

  lemma FewerApart(w: World, v: World)
    requires Apart(w) && (w.cycle < v.cycle || (w.cycle == v.cycle && w.running == v.running))
    requires (forall i :: i in v.up ==> i in w.up && v.up[i] == w.up[i])
    requires (forall i :: i in v.down ==> i in w.down && v.down[i] == w.down[i])
    ensures Apart(v)
  {
  }

  lemma BeginApart(g: Config, w: World, a: Action)
    requires g.Valid() && Enabled(g, w, a) && AllParsable(g, w) && Inv(g, w) && Apart(w) && a.Begin? && !HalfSent(g, w, a)
    ensures Apart(Act(g, w, a))
  {
    hide Join, Asks, UpOk, DownOk, Id;
    BelowNext(g, w);
    Joined(w.up, w.next, w.attempt, w.cycle, Sends(Asks(g, w, a.work, a.now, a.sent1), a.sent1, a.sent2));
  }

  lemma ServeApart(g: Config, w: World, a: Action)
    requires g.Valid() && Enabled(g, w, a) && AllParsable(g, w) && Inv(g, w) && Apart(w) && a.Serve?
    ensures Apart(Act(g, w, a))
  {
    hide IsSync, Id, Join, UpOk, DownOk, S.Serve, Request, M.ClaimsHeader, Parsable;
    ClientSizeFits(g);
    BelowNext(g, w);
    UpRequest(g, w, a.id);
    var p := w.up[a.id];
    ServeMessages(g, p, a.stale, a.rx, a.tx);
    Joined(w.down, w.next, p.attempt, p.cycle, S.Serve(p.data, a.stale, g.clk, a.rx, a.tx, g.responseTwoSteps, true));
  }

  lemma BelowNext(g: Config, w: World)
    requires UpOk(g, w) && DownOk(g, w)
    ensures (forall i :: i in w.up ==> i < w.next) && (forall i :: i in w.down ==> i < w.next)
  {
    hide IsSync, Request, Answer;
  }

  lemma {:induction false} WholeKeeps(g: Config, ws: seq<World>, actions: seq<Action>, k: nat)
    requires g.Valid() && Walk(g, Whole(0xffff), ws, actions) && k < |ws|
    requires Inv(g, ws[0]) && OwnOk(ws[0]) && Apart(ws[0])
    ensures Inv(g, ws[k]) && OwnOk(ws[k]) && Apart(ws[k])
  {
    hide Act, AllParsable, Starts, Fresh, OwnOk, Inv, Apart, HalfSent, Within;
    if k > 0 {
      WholeKeeps(g, ws, actions, k - 1);
      var w, a := ws[k - 1], actions[k - 1];
      assert Step(g, w, a, ws[k]) && Obeys(g, Whole(0xffff), w, a);
      StepKeeps(g, w, a);
      StepApart(g, w, a);
      if Starts(g, w, a) {
        NotRunning(g, w, a);
        IdNow(g, w);
        ApartIsFresh(w);
      }
    }
  }

  lemma IdNow(g: Config, w: World)
    requires Inv(g, w)
    ensures w.seqId == Id(w.cycle)
  {
  }

  /** Without half-sent requests, and with all messages in flight fewer than 65535 sequenceIds old, all is safe. */
  lemma WholeIsSafe(g: Config, v: World)
    requires g.Valid() && Inv(g, v) && OwnOk(v) && Apart(v)
    ensures Safe(g, Whole(0xffff), v)
  {
    hide Inv, OwnOk, Own, Act, Enabled, Obeys, Apart;
    forall ws, actions | Walk(g, Whole(0xffff), ws, actions) && ws[0] == v
      ensures Own(ws[|ws| - 1])
    {
      WholeKeeps(g, ws, actions, |ws| - 1);
      OwnIs(ws[|ws| - 1]);
    }
  }

  /**
   The end-to-end theorem for runs in which no attempt sends its first
   message but not its second, and in which fewer than 65535 sequenceIds are
   in flight: at every moment, what the client is done with is its own.
   */
  lemma SuccessfulWholeAttempt(g: Config, ws: seq<World>, actions: seq<Action>, k: nat)
    requires g.Valid() && Run(g, ws, actions) && Walk(g, Whole(0xffff), ws, actions) && k < |ws|
    ensures Own(ws[k])
  {
    hide Act, Enabled, AllParsable, Obeys, OwnOk, Inv, Own;
    InitialOk(g, ws[0]);
    assert Apart(ws[0]);
    WholeKeeps(g, ws, actions, k);
    OwnIs(ws[k]);
  }

  /** A client that sends its request in one message never sends half of it. */
  lemma OneStepIsWhole(g: Config, w: World, a: Action)
    requires g.Valid() && Enabled(g, w, a) && !g.requestTwoSteps
    ensures !HalfSent(g, w, a)
  {
    hide Asks, ToPtp;
    if a.Begin? {
      OneAsked(g, w, a.work, a.now, a.sent1);
    }
  }

  lemma OneAsked(g: Config, w: World, work: M.Work, now: Timespec, sent1: bool)
    requires g.Valid() && |work.octets| == g.Size() && !g.requestTwoSteps
    ensures |Asks(g, w, work, now, sent1)| <= 1
  {
    hide BuildRequest, BuildPlain, ToPtp, ClientSize;
  }

  /** All of the request is built, whenever the clock shows a time that a message can carry. */
  lemma AsksAll(g: Config, w: World, work: M.Work, now: Timespec, sent1: bool)
    requires g.Valid() && |work.octets| == g.Size() && ToPtp(now).Some?
    ensures |Asks(g, w, work, now, sent1)| == if g.requestTwoSteps && sent1 then 2 else 1
  {
    hide BuildRequest, BuildPlain, ToPtp, ClientSize;
    ClientSizeFits(g);
    var q := C.RequestParams(g.Params(), M.SYNC, w.seqId, ToPtp(now).value);
    RequestBuilds(work, q, g.Flags(), g.Size());
    C.RequestLength(work, q, g.Flags(), g.Size());
    PlainBuilds(BuildRequest(work, q, g.Flags(), g.Size()).1,
                C.RequestParams(g.Params(), M.FOLLOW_UP, w.seqId, PtpTime(0, 0, 0)), g.Size());
  }

  function NewBuffer(g: Config): M.Work {
    M.Work(seq(g.Size(), _ => 0), 0, M.Detached)
  }

  /** A request at time T1; sent2 says whether its second message is sent. */
  function Ask(g: Config, sent2: bool): Action {
    Begin(NewBuffer(g), T1, true, sent2)
  }

  lemma AskStarts(g: Config, w: World)
    requires g.Valid() && !w.running
    ensures Enabled(g, w, Ask(g, true)) && Starts(g, w, Ask(g, true)) && !HalfSent(g, w, Ask(g, true))
    ensures Enabled(g, w, Ask(g, false)) && (g.requestTwoSteps ==> HalfSent(g, w, Ask(g, false)))
  {
    hide Asks, ToPtp;
    TimesFit(T1);
    AsksAll(g, w, NewBuffer(g), T1, true);
  }

  /** After a half-sent request the next attempt takes the answer to it for its own. */
  lemma HalfSentIsUnsafe(g: Config, w: World, a: Action)
    requires g.Valid() && Inv(g, w) && AllParsable(g, w) && Within(w, 0xffff)
    requires Enabled(g, w, a) && HalfSent(g, w, a) && Tellable(g.clk, g.Flags())
    ensures Inv(g, Act(g, w, a)) && !Act(g, w, a).running
    ensures Unsafe(g, Whole(0xffff), Act(g, w, a))
  {
    hide UpOk, DownOk, FlowOk, IsSync, Id, Tellable, Unsafe, Waits, Starts, HalfSent, Act;
    var v := Act(g, w, a);
    HalfSentLeaves(g, w, a);
    InvParsable(g, v);
    AskStarts(g, v);
    var b := Ask(g, true);
    Started(g, v, b);
    var u := Act(g, v, b);
    StaleRequest(g, u, v.next, w.next);
    QuietUnsafe(g, Whole(0xffff), u);
    UnsafeStep(g, Whole(0xffff), v, b);
  }

  /** What a half-sent request leaves behind: a request with the sequenceId that is used next. */
  lemma HalfSentLeaves(g: Config, w: World, a: Action)
    requires g.Valid() && Inv(g, w) && AllParsable(g, w) && Within(w, 0xffff) && Enabled(g, w, a) && HalfSent(g, w, a)
    ensures var v := Act(g, w, a);
      && Inv(g, v) && !v.running && v.attempt == w.attempt + 1 && Within(v, 0xffff) && v.seqId == w.seqId
      && w.next in v.up && IsSync(v.up[w.next]) && v.up[w.next].attempt == w.attempt && Id(v.up[w.next].cycle) == v.seqId
  {
    hide Asks, UpOk, DownOk, FlowOk, Join, IsSync, Request, Id;
    AskMessages(g, w, a.work, a.now, a.sent1);
    BelowNext(g, w);
    Joined(w.up, w.next, w.attempt, w.cycle, Sends(Asks(g, w, a.work, a.now, a.sent1), a.sent1, a.sent2));
    StepKeeps(g, w, a);
  }

  /**
   Exactly which sends keep a client safe: from any world of a run without
   half-sent requests and with fewer than 65535 sequenceIds in flight, such
   runs go on to be safe after a request if and only if it is not half-sent.
   */
  lemma SendsExact(g: Config, w: World, a: Action)
    requires g.Valid() && Inv(g, w) && AllParsable(g, w) && Apart(w) && Within(w, 0xffff)
    requires a.Begin? && Enabled(g, w, a) && Tellable(g.clk, g.Flags())
    ensures Safe(g, Whole(0xffff), Act(g, w, a)) <==> !HalfSent(g, w, a)
  {
    hide UpOk, DownOk, FlowOk, OwnOk, IsSync, Id, Tellable, Safe, Unsafe, Act, Starts, HalfSent, Fresh, Apart;
    if HalfSent(g, w, a) {
      HalfSentIsUnsafe(g, w, a);
      UnsafeIsNotSafe(g, Whole(0xffff), Act(g, w, a));
    } else {
      ApartIsFresh(w);
      BeginKeeps(g, w, a);
      StepApart(g, w, a);
      WholeIsSafe(g, Act(g, w, a));
    }
  }

  // A run that goes wrong.

  /** The very first world. */
  function First(): World {
    var s := C.Start(T1, T1, T1);
    World(0, 0, 1, false, T1, s, s, [], map[], map[], 0, map[], map[], map[])
  }

  lemma FirstOk(g: Config)
    ensures Initial(First()) && Inv(g, First()) && OwnOk(First()) && Apart(First()) && AllParsable(g, First())
    ensures Within(First(), 0xffff)
  {
    InitialOk(g, First());
  }

  /**
   A run from the start for every client that sends in two messages: its
   first message is sent, its second is not; and the run, in which nothing
   else is sent by half, ends with a client that is done with a time that is
   not its own.
   */
  lemma HalfSentRun(g: Config) returns (ws: seq<World>, actions: seq<Action>)
    requires g.Valid() && g.requestTwoSteps && Tellable(g.clk, g.Flags())
    ensures Run(g, ws, actions) && actions != [] && actions[0] == Ask(g, false) && HalfSent(g, ws[0], actions[0])
    ensures forall k {:trigger actions[k]} :: 0 < k < |actions| ==> Obeys(g, Whole(0xffff), ws[k], actions[k])
    ensures Foreign(ws[|ws| - 1])
  {
    hide UpOk, DownOk, FlowOk, OwnOk, IsSync, Id, Tellable, Act, Starts, HalfSent, Fresh, Apart, Foreign, Obeys, Within, Enabled,
      AllParsable;
    var w, a := First(), Ask(g, false);
    FirstOk(g);
    AskStarts(g, w);
    HalfSentIsUnsafe(g, w, a);
    var us, as' :| Walk(g, Whole(0xffff), us, as') && us[0] == Act(g, w, a) && Foreign(us[|us| - 1]);
    ws, actions := [w] + us, [a] + as';
    forall k {:trigger actions[k]} | 0 <= k < |actions|
      ensures Step(g, ws[k], actions[k], ws[k + 1]) && (k > 0 ==> Obeys(g, Whole(0xffff), ws[k], actions[k]))
    {
      if k > 0 {
        assert actions[k] == as'[k - 1];
        assert ws[k] == us[k - 1] && ws[k + 1] == us[k];
      }
    }
  }

  /**
   Which clients are safe whatever their sends do, while fewer than 65535
   sequenceIds are in flight: exactly those that send in one message.
   */
  lemma ClientsExact(g: Config, v: World)
    requires g.Valid() && Initial(v) && Tellable(g.clk, g.Flags())
    ensures Safe(g, Recent(0xffff), v) <==> !g.requestTwoSteps
  {
    hide UpOk, DownOk, FlowOk, OwnOk, IsSync, Id, Tellable, Act, Starts, HalfSent, Fresh, Apart, Foreign, Own, Within, Initial;
    InitialOk(g, v);
    InitialApart(g, v);
    if g.requestTwoSteps {
      var a := Ask(g, false);
      AskStarts(g, v);
      HalfSentIsUnsafe(g, v, a);
      WholeUnsafe(g, Act(g, v, a));
      UnsafeStep(g, Recent(0xffff), v, a);
      UnsafeIsNotSafe(g, Recent(0xffff), v);
    } else {
      WholeIsSafe(g, v);
      forall ws, actions | Walk(g, Recent(0xffff), ws, actions) && ws[0] == v
        ensures Own(ws[|ws| - 1])
      {
        OneStepWalk(g, ws, actions);
      }
    }
  }

  lemma InitialApart(g: Config, v: World)
    requires Initial(v)
    ensures Apart(v) && AllParsable(g, v) && Within(v, 0xffff) && !v.running
  {
  }

  lemma OneStepWalk(g: Config, ws: seq<World>, actions: seq<Action>)
    requires g.Valid() && !g.requestTwoSteps && Walk(g, Recent(0xffff), ws, actions)
    ensures Walk(g, Whole(0xffff), ws, actions)
  {
    hide Act, Enabled, AllParsable, HalfSent, Within;
    forall k {:trigger actions[k]} | 0 <= k < |actions|
      ensures Step(g, ws[k], actions[k], ws[k + 1]) && Obeys(g, Whole(0xffff), ws[k], actions[k])
    {
      assert Obeys(g, Recent(0xffff), ws[k], actions[k]);
      OneStepIsWhole(g, ws[k], actions[k]);
    }
  }

  lemma WholeUnsafe(g: Config, v: World)
    requires g.Valid() && Unsafe(g, Whole(0xffff), v)
    ensures Unsafe(g, Recent(0xffff), v)
  {
    hide Foreign, Act, Enabled, HalfSent, Within, AllParsable;
    var ws, actions :| Walk(g, Whole(0xffff), ws, actions) && ws[0] == v && Foreign(ws[|ws| - 1]);
    forall k {:trigger actions[k]} | 0 <= k < |actions|
      ensures Step(g, ws[k], actions[k], ws[k + 1]) && Obeys(g, Recent(0xffff), ws[k], actions[k])
    {
      assert Obeys(g, Whole(0xffff), ws[k], actions[k]);
    }
    assert Walk(g, Recent(0xffff), ws, actions);
  }

  // The bound is tight.

  /** A response in flight, made when no sequenceId was used up, and a client that has come this far. */
  predicate Lingers(g: Config, v: World, j: nat) {
    && Inv(g, v) && j in v.down && IsSync(v.down[j]) && v.down[j].cycle == 0 && v.down[j].attempt < v.attempt + (if v.running then 1 else 0)
    && v.cycle <= 0xffff
  }

  lemma LingerWithin(g: Config, v: World, j: nat)
    requires Lingers(g, v, j)
    ensures Within(v, 0x1_0000) && AllParsable(g, v)
  {
    hide Inv, IsSync;
    InvParsable(g, v);
  }

  /** Idle polls, until the attempt is over and the next one begins. */
  lemma {:induction false} IdleOn(g: Config, v: World, j: nat, n: nat)
    requires g.Valid() && Tellable(g.clk, g.Flags()) && Lingers(g, v, j) && v.running && v.wait.sync
    requires n > 0 && v.cycle + n == 0xffff
    ensures Unsafe(g, Whole(0x1_0000), v)
    decreases n, v.wait.loops
  {
    hide UpOk, DownOk, FlowOk, IsSync, Id, Tellable, C.Hear, C.Next, Unsafe;
    LingerWithin(g, v, j);
    NotFailed(g, v);
    if v.wait.loops == 0 {
      StepKeeps(g, v, Finish);
      IdleAt(g, Act(g, v, Finish), j, n - 1);
      UnsafeStep(g, Whole(0x1_0000), v, Finish);
    } else {
      var a := Other(Timeout);
      StepKeeps(g, v, a);
      TimeoutPasses(g, v);
      IdleOn(g, Act(g, v, a), j, n);
      UnsafeStep(g, Whole(0x1_0000), v, a);
    }
  }

  lemma TimeoutPasses(g: Config, v: World)
    ensures var w := C.Next(v.wait, C.Hear(Cycle(g, v), Timeout));
      w.sync == v.wait.sync && w.time == v.wait.time && w.failed == v.wait.failed
      && (v.wait.loops > 0 ==> w.loops == v.wait.loops - 1)
  {
  }

  lemma {:induction false} IdleAt(g: Config, w: World, j: nat, n: nat)
    requires g.Valid() && Tellable(g.clk, g.Flags()) && Lingers(g, w, j) && !w.running && w.cycle + n == 0xffff
    ensures Unsafe(g, Whole(0x1_0000), w)
    decreases n, 100
  {
    hide UpOk, DownOk, FlowOk, IsSync, Tellable, Act, Starts, HalfSent, Unsafe;
    LingerWithin(g, w, j);
    AskStarts(g, w);
    var a := Ask(g, true);
    Started(g, w, a);
    var v := Act(g, w, a);
    if n == 0 {
      StaleSync(g, v, w.next, j);
      QuietUnsafe(g, Whole(0x1_0000), v);
    } else {
      StartLoops(g, w, a);
      IdleOn(g, v, j, n);
    }
    UnsafeStep(g, Whole(0x1_0000), w, a);
  }

  lemma StartLoops(g: Config, w: World, a: Action)
    requires g.Valid() && Enabled(g, w, a) && AllParsable(g, w) && Starts(g, w, a)
    ensures var v := Act(g, w, a); v.running && v.wait.sync && v.wait.loops == C.WAIT_LOOP
  {
    hide Asks, Join;
  }

  /**
   With messages of 65535 sequenceIds ago still in flight, instead of fewer,
   a run without half-sent requests goes wrong: the response to the first
   attempt is taken for that of the attempt that uses its sequenceId again.
   */
  lemma BoundIsTight(g: Config)
    requires g.Valid() && Tellable(g.clk, g.Flags())
    ensures Initial(First()) && Unsafe(g, Whole(0x1_0000), First())
  {
    hide UpOk, DownOk, FlowOk, OwnOk, IsSync, Tellable, Act, Starts, HalfSent, Unsafe, Apart, ToPtp;
    FirstOk(g);
    var w, a := First(), Ask(g, true);
    AskStarts(g, w);
    Started(g, w, a);
    StartLoops(g, w, a);
    var v := Act(g, w, a);
    InvParsable(g, v);
    TimesFit(T1);
    var b := Serve(w.next, STALE, T1, T1);
    ServeAnswered(g, v, w.next, STALE, T1, T1);
    StepKeeps(g, v, b);
    IdleOn(g, Act(g, v, b), v.next, 0xffff);
    UnsafeStep(g, Whole(0x1_0000), v, b);
    UnsafeStep(g, Whole(0x1_0000), w, a);
  }
}
