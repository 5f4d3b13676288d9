/** The promises of the channel, over every run: one talker, a frame gap, wake-up, fairness,
    bounded waiting and no lost work, with the runs that show where they stop. */
module BusLaws {
  import opened Keys
  import opened Channel
  import opened ModbusUnits
  import opened MasterQueues
  import opened Bus
  import opened BusSafety

  // ---------- one at a time ----------

  lemma OneKind(m: multiset<User>, u: User)
    requires forall v: User :: v != u ==> m[v] == 0
    ensures |m| == m[u]
  {
    assert m == multiset{}[u := m[u]];
  }

  lemma NoKind(m: multiset<User>)
    requires forall v: User :: m[v] == 0
    ensures |m| == 0
  {
    assert m == multiset{};
  }

  /** Triggers in flight, requests on the bus and job-done signals in flight add up to one while
      the channel is busy and to none while it is not. */
  lemma OneTalks(n: Net)
    requires Reachable(n)
    ensures var running := set u | u in n.masters && n.masters[u].inFlight.Some?;
            |n.triggers| + |running| + |n.dones| == if n.channel.busy.Some? then 1 else 0
  {
    Always(n);
    var running := set u | u in n.masters && n.masters[u].inFlight.Some?;
    assert forall u: User :: Token(n, u) == if n.channel.busy == Some(u) then 1 else 0;
    if n.channel.busy.Some? {
      var w := n.channel.busy.value;
      forall v: User | v != w ensures n.triggers[v] == 0 && n.dones[v] == 0 && v !in running {
        assert Token(n, v) == 0;
      }
      OneKind(n.triggers, w);
      OneKind(n.dones, w);
      assert Token(n, w) == 1;
      assert running == if Executing(n, w) == 1 then {w} else {};
    } else {
      forall v: User ensures n.triggers[v] == 0 && n.dones[v] == 0 && v !in running { assert Token(n, v) == 0; }
      NoKind(n.triggers);
      NoKind(n.dones);
      assert running == {};
    }
  }

  /** Nobody is triggered more often than it has asked. */
  lemma OnlyAskersTalk(n: Net, u: User)
    requires Reachable(n)
    ensures Granted(n.grants, u) <= n.asked[u]
  {
    Always(n);
    assert Granted(n.grants, u) + Flag(n.channel, u) + n.asks[u] <= n.asked[u];
  }

  // ---------- time ----------

  /** Each grant comes at least a frame gap after the one before it. */
  lemma GrantsApart(n: Net, i: nat)
    requires Reachable(n) && i + 1 < |n.grants|
    ensures n.grants[i + 1].at - n.grants[i].done >= n.channel.frameGap
  {
    Always(n);
    hide Reachable;
    var g := n.grants[i + 1];
    assert Sound(g) && Follows(n.grants[i], g.before);
    ToWaitIsDifference(g.before.frameGap, g.before.lastFrame, g.at);
    GapStays(n, i + 1);
    hide ToWait;
  }

  lemma {:induction false} GapStays(n: Net, i: nat)
    requires Past(n.grants, n.channel) && i < |n.grants|
    ensures n.grants[i].before.frameGap == n.channel.frameGap
    decreases |n.grants| - i
  {
    hide Sound;
    if i + 1 < |n.grants| {
      GapStays(n, i + 1);
      assert Follows(n.grants[i], n.grants[i + 1].before);
    }
  }

  /** While the channel is idle and somebody waits, the frame timer runs; when it fires on time
      somebody is triggered. */
  lemma IdleIsAwake(n: Net, t: Millis, t1: Millis, g: Option<User>)
    requires Reachable(n) && n.channel.busy == None && Waiting(n.channel) != {}
    ensures n.channel.timer == Some(n.channel.lastFrame + n.channel.frameGap)
    ensures n.channel.timer.value <= t && Enabled(n, TimerFires(t, t1, g)) ==> g.Some?
  {
    Always(n);
    ToWaitIsDifference(n.channel.frameGap, n.channel.lastFrame, t);
    assert Waiting(Fired(n.channel)) == Waiting(n.channel);
    hide ToWait;
  }

  /** A choice is made at event e: the channel is idle and the frame gap is over. */
  predicate ChoiceMade(n: Net, e: Event)
    requires Enabled(n, e) && AtChannel(e)
  {
    (n.channel.busy == None || e.DoneArrives?) && n.channel.lastFrame + n.channel.frameGap <= e.t
  }

  /** The gap starts anew at each choice, whether anybody was waiting or not, and at nothing else; only
      a choice triggers, and it triggers somebody exactly if somebody waits. */
  lemma GapStartsAnew(n: Net, e: Event)
    requires Reachable(n) && Enabled(n, e)
    ensures Next(n, e).channel.frameGap == n.channel.frameGap
    ensures if AtChannel(e) && ChoiceMade(n, e) then
              && Next(n, e).channel.lastFrame == e.t1
              && (e.grant.Some? <==> Waiting(n.channel) != {} || e.AskArrives?)
              && Next(n, e).grants ==
                 if e.grant.Some? then n.grants + [Grant(Met(n, e), e.t, e.t1, e.grant.value)] else n.grants
            else Next(n, e).channel.lastFrame == n.channel.lastFrame && Next(n, e).grants == n.grants
  {
    Always(n);
    if AtChannel(e) {
      ChoiceIs(n, e);
    } else {
      hide Invariant, Next, Enabled;
      ChannelAside(n, e);
    }
  }

  lemma ChosenFrame(c: Arbiter, t: Millis, t1: Millis, g: Option<User>)
    requires MayGrant(c, t, g) && c.lastFrame <= t < TWO_63 && c.frameGap < 0x8000_0000
    ensures Chosen(c, t, t1, g).frameGap == c.frameGap
    ensures if c.busy == None && c.lastFrame + c.frameGap <= t then
              Chosen(c, t, t1, g).lastFrame == t1 && (g.Some? <==> Waiting(c) != {})
            else Chosen(c, t, t1, g).lastFrame == c.lastFrame && g == None
  {
    ToWaitIsDifference(c.frameGap, c.lastFrame, t);
    hide ToWait, Waiting;
  }

  lemma ChoiceIs(n: Net, e: Event)
    requires Shape(n) && Enabled(n, e) && AtChannel(e)
    ensures Next(n, e).channel.frameGap == n.channel.frameGap
    ensures if ChoiceMade(n, e) then
              && Next(n, e).channel.lastFrame == e.t1
              && (e.grant.Some? <==> Waiting(n.channel) != {} || e.AskArrives?)
              && Next(n, e).grants ==
                 if e.grant.Some? then n.grants + [Grant(Met(n, e), e.t, e.t1, e.grant.value)] else n.grants
            else Next(n, e).channel.lastFrame == n.channel.lastFrame && Next(n, e).grants == n.grants
  {
    MetClock(n, e);
    MetIs(n, e);
    MastersAside(n, e, 0);
    hide ToWait, Next, Enabled, Met, Waiting, Chosen, MayGrant;
    ChosenFrame(Met(n, e), e.t, e.t1, e.grant);
  }

  /** The frame timer runs once: it is started for the end of the gap by whatever comes to an idle channel
      too early, and when it has fired it runs only if it was started again. */
  lemma TimerFollows(n: Net, e: Event)
    requires Reachable(n) && Enabled(n, e)
    ensures Next(n, e).channel.timer ==
            if AtChannel(e) && (n.channel.busy == None || e.DoneArrives?) && !ChoiceMade(n, e) then
              Some(n.channel.lastFrame + n.channel.frameGap)
            else if e.TimerFires? then None
            else n.channel.timer
  {
    Always(n);
    if AtChannel(e) {
      TimerIs(n, e);
    } else {
      hide Invariant, Next, Enabled;
      ChannelAside(n, e);
    }
  }

  lemma ChosenTimer(c: Arbiter, t: Millis, t1: Millis, g: Option<User>)
    requires MayGrant(c, t, g) && c.lastFrame <= t < TWO_63 && c.frameGap < 0x8000_0000
    ensures Chosen(c, t, t1, g).timer ==
            if c.busy == None && t < c.lastFrame + c.frameGap then Some(c.lastFrame + c.frameGap) else c.timer
  {
    ToWaitIsDifference(c.frameGap, c.lastFrame, t);
    hide ToWait, MayGrant;
  }

  lemma TimerIs(n: Net, e: Event)
    requires Shape(n) && Enabled(n, e) && AtChannel(e)
    ensures Next(n, e).channel.timer ==
            if (n.channel.busy == None || e.DoneArrives?) && !ChoiceMade(n, e) then
              Some(n.channel.lastFrame + n.channel.frameGap)
            else if e.TimerFires? then None
            else n.channel.timer
  {
    MetClock(n, e);
    MetIs(n, e);
    MastersAside(n, e, 0);
    hide ToWait, Next, Enabled, Met, Waiting, Chosen, MayGrant;
    ChosenTimer(Met(n, e), e.t, e.t1, e.grant);
  }

  lemma MetIs(n: Net, e: Event)
    requires Enabled(n, e) && AtChannel(e)
    ensures var c := Met(n, e);
            && c.lastFrame == n.channel.lastFrame && c.frameGap == n.channel.frameGap
            && c.timer == (if e.TimerFires? then None else n.channel.timer)
            && (c.busy == None <==> n.channel.busy == None || e.DoneArrives?)
            && (Waiting(c) != {} <==> Waiting(n.channel) != {} || e.AskArrives?)
  {
    hide MayGrant, Next;
    if e.AskArrives? {
      assert e.user in Waiting(Met(n, e));
    } else {
      assert Waiting(Met(n, e)) == Waiting(n.channel);
    }
  }

  lemma {:induction false} LaterGrants(n: Net, es: seq<Event>, since: int)
    requires Reachable(n) && IsRun(n, es) && since <= n.channel.lastFrame
    ensures n.grants <= After(n, es).grants
    ensures forall i :: |n.grants| <= i < |After(n, es).grants| ==>
              After(n, es).grants[i].at >= since + n.channel.frameGap
    decreases |es|
  {
    hide Enabled, Next, ChoiceMade, Reachable;
    if es != [] {
      GapStartsAnew(n, es[0]);
      StillReachable(n, es[0]);
      assert since <= Next(n, es[0]).channel.lastFrame by { FramesForward(n, es[0]); }
      if AtChannel(es[0]) && ChoiceMade(n, es[0]) { ChoosesLate(n, es[0]); }
      LaterGrants(Next(n, es[0]), es[1..], since);
    }
  }

  lemma ChoosesLate(n: Net, e: Event)
    requires Enabled(n, e) && AtChannel(e) && ChoiceMade(n, e)
    ensures e.t >= n.channel.lastFrame + n.channel.frameGap
  {}

  lemma FramesForward(n: Net, e: Event)
    requires Reachable(n) && Enabled(n, e)
    ensures Next(n, e).channel.lastFrame >= n.channel.lastFrame
  {
    Always(n);
    hide Reachable, Next, Enabled, ChoiceMade;
    GapStartsAnew(n, e);
    if AtChannel(e) { MetClock(n, e); MetIs(n, e); }
  }

  /** After any choice, one that found nobody waiting included, nobody is triggered before another frame
      gap is over. */
  lemma QuietForTheGap(n: Net, e: Event, es: seq<Event>)
    requires Reachable(n) && Enabled(n, e) && AtChannel(e) && ChoiceMade(n, e) && IsRun(Next(n, e), es)
    ensures Next(n, e).grants <= After(Next(n, e), es).grants
    ensures forall i :: |Next(n, e).grants| <= i < |After(Next(n, e), es).grants| ==>
              After(Next(n, e), es).grants[i].at >= e.t1 + n.channel.frameGap
  {
    hide Enabled, Next, ChoiceMade, Reachable;
    GapStartsAnew(n, e);
    StillReachable(n, e);
    LaterGrants(Next(n, e), es, e.t1);
  }

  lemma StillReachable(n: Net, e: Event)
    requires Reachable(n) && Enabled(n, e)
    ensures Reachable(Next(n, e))
  {
    hide Enabled, Next, Initial, IsRun, After;
    var start, es :| Initial(start) && IsRun(start, es) && n == After(start, es);
    RunMore(start, es, e);
    assert Initial(start) && IsRun(start, es + [e]) && Next(n, e) == After(start, es + [e]);
  }

  // ---------- fairness ----------

  /** Nobody is triggered twice running while another waits. */
  lemma NeverTwiceRunning(n: Net, i: nat)
    requires Reachable(n) && i + 1 < |n.grants| && n.grants[i + 1].user == n.grants[i].user
    ensures Waiting(n.grants[i + 1].before) == {n.grants[i].user}
  {
    Always(n);
    hide ToWait, Reachable, Waiting;
    assert Sound(n.grants[i + 1]) && Follows(n.grants[i], n.grants[i + 1].before);
  }

  /** The users that may be preferred to w. */
  function Rivals(c: Arbiter, w: User): set<User>
    requires w in c.users
  {
    set u | u in c.users && u != w && c.users[u].priority >= c.users[w].priority
  }

  /** w was waiting when grant g went to another. */
  predicate PassedOver(g: Grant, w: User) { w in Waiting(g.before) && g.user != w }

  lemma StillWaiting(g: Grant, h: Grant, w: User)
    requires Sound(g) && Sound(h) && Follows(g, h.before) && PassedOver(g, w)
    ensures w in Waiting(h.before) && h.before.lastBusy == Some(g.user)
    ensures w in g.before.users && w in h.before.users && Rivals(h.before, w) == Rivals(g.before, w)
    ensures h.user != w ==> h.user in Rivals(h.before, w) && h.user != g.user
    ensures g.before.lastBusy != Some(w) ==> g.user in Rivals(g.before, w)
  {
    hide ToWait;
  }

  /** A user of higher priority than all others, or one of only two, is passed over at most once
      running. */
  lemma PassedOverOnce(n: Net, i: nat, w: User)
    requires Reachable(n) && i + 1 < |n.grants| && PassedOver(n.grants[i], w)
    requires w in n.grants[i].before.users
    requires Rivals(n.grants[i].before, w) == {} || |n.grants[i].before.users.Keys| == 2
    ensures n.grants[i + 1].user == w
  {
    Always(n);
    hide Reachable, Sound, Follows, PassedOver, Rivals, Waiting;
    var g, h := n.grants[i], n.grants[i + 1];
    StillWaiting(g, h, w);
    if h.user != w {
      ThirdUser(g, h, w);
      assert false;
    }
  }

  lemma ThirdUser(g: Grant, h: Grant, w: User)
    requires Sound(g) && Sound(h) && Follows(g, h.before) && w in Waiting(g.before) && h.user != w &&
             h.user != g.user && g.user != w
    ensures |g.before.users.Keys| != 2
  {
    hide ToWait;
    assert {g.user, h.user, w} <= g.before.users.Keys;
    Within({g.user, h.user, w}, g.before.users.Keys);
  }

  lemma Within(a: set<User>, b: set<User>)
    requires a <= b
    ensures |a| <= |b|
  {
    assert b == a + (b - a);
  }

  /** With at most one rival nobody is passed over three times running. */
  lemma PassedOverTwice(n: Net, i: nat, w: User)
    requires Reachable(n) && i + 2 < |n.grants| && w in n.grants[i].before.users
    requires |Rivals(n.grants[i].before, w)| <= 1
    requires PassedOver(n.grants[i], w) && PassedOver(n.grants[i + 1], w)
    ensures n.grants[i + 2].user == w
  {
    Always(n);
    var f, g, h := n.grants[i], n.grants[i + 1], n.grants[i + 2];
    assert Sound(f) && Sound(g) && Sound(h) && Follows(f, g.before) && Follows(g, h.before);
    StillWaiting(f, g, w);
    StillWaiting(g, h, w);
    hide Reachable, Sound, Follows, Rivals, Waiting;
    if h.user != w {
      Within({g.user, h.user}, Rivals(f.before, w));
    }
  }

  // ---------- work ----------

  /** No trigger reaches a master that is disconnected and has work queued. */
  ghost predicate Steady(n: Net, es: seq<Event>)
    requires IsRun(n, es)
    decreases |es|
  {
    es == [] ||
    ((es[0].TriggerArrives? ==> n.masters[es[0].user].connected || !HasWork(n.masters[es[0].user])) &&
     Steady(Next(n, es[0]), es[1..]))
  }

  lemma {:induction false} SteadyDropsNothing(n: Net, es: seq<Event>)
    requires n.dropped == {} && IsRun(n, es) && Steady(n, es)
    ensures After(n, es).dropped == {}
    decreases |es|
  {
    hide MayGrant, Chosen, Queued, HasWork;
    if es != [] {
      var n1 := Next(n, es[0]);
      assert n1.dropped == {} by { DropsOnlyThen(n, es[0]); }
      SteadyDropsNothing(n1, es[1..]);
    }
  }

  lemma DropsOnlyThen(n: Net, e: Event)
    requires Enabled(n, e) && n.dropped == {}
    requires e.TriggerArrives? ==> n.masters[e.user].connected || !HasWork(n.masters[e.user])
    ensures Next(n, e).dropped == {}
  {
    hide MayGrant, Chosen, Queued;
  }

  /** A master that has lost its turn counts as dropped only until it asks again. */
  lemma AskingRedeems(n: Net, e: Event, u: User)
    requires Enabled(n, e) && Next(n, e).asked[u] > n.asked[u]
    ensures u !in Next(n, e).dropped
  {
    hide MayGrant, Chosen, Queued, SetWaiting, Freed, Fired;
  }

  /** In a steady run whoever has work queued has an ask in flight, waits, or has the bus. */
  lemma NoWorkLost(start: Net, es: seq<Event>, u: User)
    requires Initial(start) && IsRun(start, es) && Steady(start, es)
    requires u in After(start, es).masters && HasWork(After(start, es).masters[u])
    ensures Pending(After(start, es), u)
  {
    hide Pending, HasWork, Enabled, Next, Steady, IsRun, After;
    var n := After(start, es);
    assert Reachable(n);
    Always(n);
    SteadyDropsNothing(start, es);
  }

  /** A trigger loses a master's work exactly when it finds the master disconnected, with work
      queued and no other ask under way. */
  lemma WorkLostExactly(n: Net, u: User)
    requires Reachable(n) && Enabled(n, TriggerArrives(u))
    ensures var n1 := Next(n, TriggerArrives(u));
            HasWork(n1.masters[u]) && !Pending(n1, u) <==>
            !n.masters[u].connected && HasWork(n.masters[u]) && u !in n.asks && u !in Waiting(n.channel)
  {
    Always(n);
    hide Reachable, Waiting;
    assert Token(n, u) <= 1;
  }
}
