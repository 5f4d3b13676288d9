/** Runs of the bus on which a promise stops: starvation by two rivals, and work forgotten
    across a reconnection. */
module BusLimits {
  import opened Keys
  import opened Channel
  import opened ModbusUnits
  import opened MasterQueues
  import opened Bus
  import opened BusSafety
  import opened BusLaws

  ghost predicate Reaches(start: Net, n: Net) { exists es :: IsRun(start, es) && n == After(start, es) }

  lemma Onward(start: Net, n: Net, e: Event)
    requires Reaches(start, n) && Enabled(n, e)
    ensures Reaches(start, Next(n, e))
  {
    hide Enabled, Next, IsRun, After;
    var es :| IsRun(start, es) && n == After(start, es);
    RunMore(start, es, e);
    assert IsRun(start, es + [e]) && Next(n, e) == After(start, es + [e]);
  }

  lemma FromStart(start: Net)
    ensures Reaches(start, start)
  {
    assert IsRun(start, []) && start == After(start, []);
  }

  lemma Holds(start: Net, n: Net)
    requires Initial(start) && Reaches(start, n)
    ensures Reachable(n) && Invariant(n)
  {
    hide Invariant, Initial, IsRun, After;
    var es :| IsRun(start, es) && n == After(start, es);
    assert Initial(start) && IsRun(start, es) && n == After(start, es);
    Always(n);
  }

  /** The first moment from now on at which the frame gap has passed. */
  function Due(n: Net): int {
    if n.channel.lastFrame + n.channel.frameGap <= n.now then n.now else n.channel.lastFrame + n.channel.frameGap
  }

  lemma ReadyWhenDue(n: Net, c: Arbiter)
    requires Shape(n) && Due(n) < TWO_63
    requires c.busy == None && c.lastFrame == n.channel.lastFrame && c.frameGap == n.channel.frameGap
    ensures n.now <= Due(n) <= n.now + n.channel.frameGap && Ready(c, Due(n))
  {
    ToWaitIsDifference(c.frameGap, c.lastFrame, Due(n));
    hide ToWait;
  }

  // ---------- starvation ----------

  /** A run among whose users w has the rivals a and b. */
  ghost predicate Wheel(start: Net, n: Net, a: User, b: User, w: User) {
    && Initial(start) && Reaches(start, n) && Shape(n)
    && a != b && a in n.channel.users && b in n.channel.users && w in n.channel.users
    && a in Rivals(n.channel, w) && b in Rivals(n.channel, w)
    && n.channel.frameGap == start.channel.frameGap
    && n.masters[a].connected && n.masters[b].connected
  }

  lemma WheelOn(start: Net, n: Net, e: Event, a: User, b: User, w: User)
    requires Wheel(start, n, a, b, w) && Enabled(n, e) && !e.Disconnected?
    ensures Wheel(start, Next(n, e), a, b, w)
  {
    hide Reaches, Initial, Next, Enabled, Rivals;
    Onward(start, n, e);
    ShapeKept(n, e);
    if AtChannel(e) { WheelAtChannel(n, e, a, b, w); } else { WheelAtMaster(n, e, a, b, w); }
  }

  lemma WheelAtChannel(n: Net, e: Event, a: User, b: User, w: User)
    requires w in n.channel.users && Enabled(n, e) && AtChannel(e)
    ensures var n1 := Next(n, e);
            n1.masters == n.masters && n1.channel.users.Keys == n.channel.users.Keys &&
            n1.channel.frameGap == n.channel.frameGap &&
            Rivals(n1.channel, w) == Rivals(n.channel, w)
  {
    hide Chosen, MayGrant, Waiting, Next, Enabled, Rivals;
    MastersAside(n, e, w);
    PrioritiesStay(Met(n, e), e.t, e.t1, e.grant);
    MetRivals(n, e, w);
    RivalsSame(Met(n, e), Next(n, e).channel, w);
  }

  lemma MetRivals(n: Net, e: Event, w: User)
    requires w in n.channel.users && Enabled(n, e) && AtChannel(e)
    ensures var c := Met(n, e);
            w in c.users && c.users.Keys == n.channel.users.Keys && c.frameGap == n.channel.frameGap &&
            Rivals(c, w) == Rivals(n.channel, w)
  {
    hide MayGrant;
  }

  lemma RivalsSame(c: Arbiter, c1: Arbiter, w: User)
    requires w in c.users && c1.users.Keys == c.users.Keys
    requires forall u :: u in c.users ==> c1.users[u].priority == c.users[u].priority
    ensures Rivals(c1, w) == Rivals(c, w)
  {}

  lemma WheelAtMaster(n: Net, e: Event, a: User, b: User, w: User)
    requires a in n.masters && b in n.masters && Enabled(n, e) && !AtChannel(e) && !e.Disconnected?
    ensures var n1 := Next(n, e);
            n1.channel == n.channel && a in n1.masters && b in n1.masters &&
            (n.masters[a].connected ==> n1.masters[a].connected) && (n.masters[b].connected ==> n1.masters[b].connected)
  {
    hide Next, Enabled;
    ChannelAside(n, e);
    if n.masters[a].connected { StaysConnected(n, e, a); }
    if n.masters[b].connected { StaysConnected(n, e, b); }
  }

  lemma StaysConnected(n: Net, e: Event, u: User)
    requires u in n.masters && Enabled(n, e) && !AtChannel(e) && !e.Disconnected? && n.masters[u].connected
    ensures u in Next(n, e).masters && Next(n, e).masters[u].connected
  {
    if u == e.user {
      hide MayGrant, Queued;
    } else {
      hide Next, Enabled;
      OthersAside(n, e, u);
    }
  }

  lemma PrioritiesStay(c: Arbiter, t: Millis, t1: Millis, g: Option<User>)
    requires MayGrant(c, t, g)
    ensures var c1 := Chosen(c, t, t1, g);
            c1.users.Keys == c.users.Keys && c1.frameGap == c.frameGap &&
            forall u :: u in c.users ==> c1.users[u].priority == c.users[u].priority
  {
    hide ToWait;
  }

  const ANY_UNIT := Unit(Holding, 0, [])

  /** a finishes its request and asks again. */
  lemma Finishes(start: Net, n: Net, a: User, b: User, w: User) returns (m: Net)
    requires Wheel(start, n, a, b, w) && n.channel.busy == Some(a) && n.masters[a].inFlight.Some?
    ensures Wheel(start, m, a, b, w) && m.channel.busy == Some(a) && a in m.dones
    ensures Waiting(m.channel) == Waiting(n.channel) + {a} && m.grants == n.grants && m.now == n.now
  {
    assert Shape(n);
    hide Wheel, Waiting;
    var e1 := ReplyDestroyed(a);
    var n1 := Next(n, e1);
    WheelOn(start, n, e1, a, b, w);
    m := Busy(start, n1, a, a, b, w);
  }

  /** u's ask arrives while the channel is busy. */
  lemma Busy(start: Net, n: Net, u: User, a: User, b: User, w: User) returns (m: Net)
    requires Wheel(start, n, a, b, w) && n.channel.busy.Some? && u in n.asks && u in n.channel.users && n.now < TWO_63
    ensures Wheel(start, m, a, b, w) && m.masters == n.masters && m.dones == n.dones && m.grants == n.grants &&
            m.now == n.now
    ensures m.channel == SetWaiting(n.channel, u, true) && Waiting(m.channel) == Waiting(n.channel) + {u}
  {
    hide Wheel, ToWait;
    var e := AskArrives(u, n.now, n.now, None);
    WheelOn(start, n, e, a, b, w);
    m := Next(n, e);
  }

  /** a's job-done signal arrives, and of those that wait b gets the bus rather than w. */
  lemma Chooses(start: Net, n: Net, a: User, b: User, w: User) returns (m: Net)
    requires Wheel(start, n, a, b, w) && n.channel.busy == Some(a) && a in n.dones && Waiting(n.channel) == {a, b, w}
    requires n.now + start.channel.frameGap < TWO_63
    ensures Wheel(start, m, a, b, w) && m.channel.busy == Some(b) && b in m.triggers && m.masters == n.masters
    ensures Waiting(m.channel) == {a, w} && m.now <= n.now + start.channel.frameGap
    ensures exists g :: m.grants == n.grants + [g] && PassedOver(g, w)
  {
    var t := Due(n);
    ReadyWhenDue(n, Freed(n.channel));
    assert MayGrant(Freed(n.channel), t, Some(b)) by {
      assert Waiting(Freed(n.channel)) == {a, b, w};
      hide ToWait;
    }
    var e := DoneArrives(a, t, t, Some(b));
    ChosenFacts(Freed(n.channel), t, t, Some(b));
    hide ToWait, MayGrant, Wheel, Chosen, Due;
    WheelOn(start, n, e, a, b, w);
    m := Next(n, e);
    var g := Grant(Freed(n.channel), t, t, b);
    assert m.grants == n.grants + [g] && PassedOver(g, w);
    assert b in m.triggers;
  }

  /** b is given something to do and does it. */
  lemma Starts(start: Net, n: Net, b: User, a: User, w: User) returns (m: Net)
    requires Wheel(start, n, a, b, w) && b in n.triggers
    ensures Wheel(start, m, a, b, w) && m.channel == n.channel && m.masters[b].inFlight.Some?
    ensures m.grants == n.grants && m.now == n.now
  {
    var e1 := WriteWanted(b, ANY_UNIT);
    var e2 := TriggerArrives(b);
    assert Shape(n) && n.masters[b].connected;
    hide Wheel, Waiting, Queued;
    WheelOn(start, n, e1, a, b, w);
    var n1 := Next(n, e1);
    WheelOn(start, n1, e2, a, b, w);
    m := Next(n1, e2);
  }

  /** k turns of the wheel: w waits through k grants, all to its rivals. */
  lemma {:induction false} Starves(start: Net, n: Net, a: User, b: User, w: User, k: nat) returns (m: Net)
    requires Wheel(start, n, a, b, w) && n.channel.busy == Some(a) && n.masters[a].inFlight.Some? &&
             Waiting(n.channel) == {b, w}
    requires n.now + k * start.channel.frameGap < TWO_63
    ensures Reaches(start, m) && n.grants <= m.grants && |m.grants| == |n.grants| + k && w in Waiting(m.channel)
    ensures forall i :: |n.grants| <= i < |m.grants| ==> PassedOver(m.grants[i], w)
    decreases k
  {
    hide Wheel, PassedOver, Reaches;
    if k == 0 {
      m := n;
      assert Reaches(start, n) by { WheelReaches(start, n, a, b, w); }
    } else {
      var gap := start.channel.frameGap;
      assert k * gap == (k - 1) * gap + gap && (k - 1) * gap >= 0;
      var n1 := Finishes(start, n, a, b, w);
      assert Waiting(n1.channel) == {a, b, w};
      var n2 := Chooses(start, n1, a, b, w);
      var n3 := Starts(start, n2, b, a, w);
      WheelTurned(start, n3, a, b, w);
      m := Starves(start, n3, b, a, w, k - 1);
    }
  }

  lemma WheelReaches(start: Net, n: Net, a: User, b: User, w: User)
    requires Wheel(start, n, a, b, w)
    ensures Reaches(start, n)
  {}

  lemma WheelTurned(start: Net, n: Net, a: User, b: User, w: User)
    requires Wheel(start, n, a, b, w)
    ensures Wheel(start, n, b, a, w)
  {}

  /** Whatever the priorities and the frame gap, a user with two rivals may wait through any number
      of grants that the clock has room for. */
  lemma TwoRivalsStarve(start: Net, a: User, b: User, w: User, k: nat) returns (m: Net)
    requires Initial(start) && w in start.channel.users
    requires start.now + (k + 1) * start.channel.frameGap < TWO_63
    requires a != b && {a, b} <= Rivals(start.channel, w)
    ensures Reaches(start, m) && |m.grants| == k + 1 && w in Waiting(m.channel)
    ensures forall i :: 1 <= i < |m.grants| ==> PassedOver(m.grants[i], w)
  {
    var gap := start.channel.frameGap;
    assert (k + 1) * gap == k * gap + gap && k * gap >= 0;
    m := Spun(start, a, b, w);
    m := Starves(start, m, a, b, w, k);
  }

  /** The way into the wheel: both rivals connect, a gets the bus, then b and w ask. */
  lemma Spun(start: Net, a: User, b: User, w: User) returns (m: Net)
    requires Initial(start) && w in start.channel.users && start.now + start.channel.frameGap < TWO_63
    requires a != b && {a, b} <= Rivals(start.channel, w)
    ensures Wheel(start, m, a, b, w) && m.channel.busy == Some(a) && m.masters[a].inFlight.Some? &&
            Waiting(m.channel) == {b, w}
    ensures |m.grants| == 1 && m.now <= start.now + start.channel.frameGap
  {
    var n1, n2 := Next(start, Connected(a)), Next(Next(start, Connected(a)), Connected(b));
    FromStart(start);
    Onward(start, start, Connected(a));
    Onward(start, n1, Connected(b));
    assert Wheel(start, n2, a, b, w);
    assert Waiting(n2.channel) == {};
    hide Wheel, Initial;
    var n3 := First(start, n2, a, b, w);
    var n4 := Starts(start, n3, a, b, w);
    m := Joins(start, n4, b, a, b, w);
    m := Joins(start, m, w, a, b, w);
    assert Waiting(m.channel) == {b, w};
  }

  /** a asks on the idle channel and gets it. */
  lemma First(start: Net, n: Net, a: User, b: User, w: User) returns (m: Net)
    requires Wheel(start, n, a, b, w) && n.channel.busy == None && Waiting(n.channel) == {}
    requires n.now + start.channel.frameGap < TWO_63
    ensures Wheel(start, m, b, a, w) && m.channel.busy == Some(a) && a in m.triggers && Waiting(m.channel) == {}
    ensures |m.grants| == |n.grants| + 1 && m.now <= n.now + start.channel.frameGap
  {
    var e1 := WriteWanted(a, ANY_UNIT);
    WheelOn(start, n, e1, a, b, w);
    var n1 := Next(n, e1);
    var c, t := SetWaiting(n1.channel, a, true), Due(n1);
    ReadyWhenDue(n1, c);
    assert MayGrant(c, t, Some(a)) by {
      assert Waiting(c) == {a};
      hide ToWait;
    }
    ChosenFacts(c, t, t, Some(a));
    hide ToWait, MayGrant, Wheel, Chosen, Due;
    var e2 := AskArrives(a, t, t, Some(a));
    WheelOn(start, n1, e2, a, b, w);
    m := Next(n1, e2);
    assert Waiting(m.channel) == Waiting(c) - {a} == {};
    WheelTurned(start, m, a, b, w);
  }

  /** u has something to do and asks while the channel is busy. */
  lemma Joins(start: Net, n: Net, u: User, a: User, b: User, w: User) returns (m: Net)
    requires Wheel(start, n, a, b, w) && n.channel.busy == Some(a) && n.masters[a].inFlight.Some? && u in {b, w}
    ensures Wheel(start, m, a, b, w) && m.channel.busy == Some(a) && m.masters[a].inFlight.Some?
    ensures Waiting(m.channel) == Waiting(n.channel) + {u} && m.grants == n.grants && m.now == n.now
  {
    var e := WriteWanted(u, ANY_UNIT);
    assert Shape(n) && u in n.masters && u != a;
    hide Wheel, Waiting;
    WheelOn(start, n, e, a, b, w);
    m := Busy(start, Next(n, e), u, a, b, w);
  }

  // ---------- work forgotten across a reconnection ----------

  /** u is disconnected, the channel is idle and only the asks of u are under way. */
  ghost predicate Cut(start: Net, n: Net, u: User, asks: multiset<User>) {
    && Initial(start) && Reaches(start, n) && Shape(n) && n.channel.frameGap == start.channel.frameGap
    && u in n.masters && !n.masters[u].connected && n.masters[u].inFlight == None
    && n.channel.busy == None && Waiting(n.channel) == {}
    && n.asks == asks && n.triggers == n.dones == multiset{}
  }

  /** The turn of a disconnected master passes without effect. */
  lemma Bounce(start: Net, n: Net, u: User) returns (m: Net)
    requires Cut(start, n, u, multiset{u}) && n.now + start.channel.frameGap < TWO_63
    ensures Cut(start, m, u, multiset{}) && m.masters[u] == n.masters[u] && m.now <= n.now + start.channel.frameGap
  {
    var n1 := GetsTurn(start, n, u);
    var n2 := GivesBack(start, n1, u);
    hide MayGrant, ToWait, Initial, Waiting, Reaches;
    assert Waiting(Freed(n2.channel)) == {} by { EmptyStays(n2.channel); }
    NoGrant(Freed(n2.channel), n2.now);
    ChosenFacts(Freed(n2.channel), n2.now, n2.now, None);
    var e3 := DoneArrives(u, n2.now, n2.now, None);
    Onward(start, n2, e3);
    m := Next(n2, e3);
  }

  lemma GivesBack(start: Net, n: Net, u: User) returns (m: Net)
    requires Reaches(start, n) && u in n.masters && !n.masters[u].connected && n.triggers == multiset{u} &&
             n.dones == multiset{}
    ensures Reaches(start, m) && m.channel == n.channel && m.asks == n.asks && m.triggers == multiset{} &&
            m.dones == multiset{u}
    ensures m.masters.Keys == n.masters.Keys && m.masters[u] == n.masters[u] && m.now == n.now
  {
    hide MayGrant, Reaches, Waiting;
    var e := TriggerArrives(u);
    Onward(start, n, e);
    m := Next(n, e);
    assert m.masters == n.masters;
  }

  lemma EmptyStays(c: Arbiter)
    requires Waiting(c) == {}
    ensures Waiting(Freed(c)) == {}
  {}

  lemma NoGrant(c: Arbiter, t: Millis)
    requires Waiting(c) == {}
    ensures MayGrant(c, t, None)
  {}

  lemma GetsTurn(start: Net, n: Net, u: User) returns (m: Net)
    requires Cut(start, n, u, multiset{u}) && n.now + start.channel.frameGap < TWO_63
    ensures Initial(start) && Reaches(start, m) && Shape(m) && m.masters == n.masters
    ensures m.channel.frameGap == start.channel.frameGap && m.now <= n.now + start.channel.frameGap
    ensures m.channel.busy == Some(u) && Waiting(m.channel) == {}
    ensures m.asks == m.dones == multiset{} && m.triggers == multiset{u}
  {
    var c, t := SetWaiting(n.channel, u, true), Due(n);
    ReadyWhenDue(n, c);
    assert MayGrant(c, t, Some(u)) by {
      assert Waiting(c) == {u};
      hide ToWait;
    }
    ChosenFacts(c, t, t, Some(u));
    hide ToWait, Initial, MayGrant, Chosen, Due;
    var e := AskArrives(u, t, t, Some(u));
    Onward(start, n, e);
    m := Next(n, e);
    assert Waiting(m.channel) == {};
  }

  /** u has the one read queued, and nothing that is under way will have it served. */
  ghost predicate Forgotten(n: Net, u: User, unit: Unit) {
    u in n.masters && n.masters[u].readQueue == [unit] && n.masters[u].writeQueue == [] && !Pending(n, u)
  }

  /** The events that make a forgotten read asked for again: a write, another read, or a new
      attempt to connect. */
  predicate Wakes(e: Event, u: User, unit: Unit) {
    (e.WriteWanted? && e.user == u) || (e.ReadWanted? && e.user == u && !SameQuery(unit, e.unit)) ||
    (e.Reconnecting? && e.user == u)
  }

  lemma ForgottenAtChannel(n: Net, e: Event, u: User, unit: Unit)
    requires Enabled(n, e) && AtChannel(e) && Forgotten(n, u, unit)
    ensures Forgotten(Next(n, e), u, unit)
  {
    MastersAside(n, e, u);
    MetWaiting(n, e, u);
    hide Chosen, MayGrant, Waiting, Next, Enabled, Met;
    ChosenFacts(Met(n, e), e.t, e.t1, e.grant);
  }

  lemma ForgottenAtOthers(n: Net, e: Event, u: User, unit: Unit)
    requires Enabled(n, e) && !AtChannel(e) && e.user != u && Forgotten(n, u, unit)
    ensures Forgotten(Next(n, e), u, unit)
  {
    ChannelAside(n, e);
    OthersAside(n, e, u);
    hide Next, Enabled, Waiting;
  }

  lemma ForgottenAtOwn(n: Net, e: Event, unit: Unit)
    requires Enabled(n, e) && !AtChannel(e) && Forgotten(n, e.user, unit)
    ensures Forgotten(Next(n, e), e.user, unit) <==> !Wakes(e, e.user, unit)
  {
    hide MayGrant, Waiting;
    var m := n.masters[e.user];
    assert SameQuery(m.readQueue[0], unit);
    if e.ReadWanted? {
      assert Queued(m.readQueue, e.unit) <==> SameQuery(unit, e.unit) by {
        assert SameQuery(m.readQueue[0], e.unit) <==> SameQuery(unit, e.unit);
      }
    }
  }

  /** A forgotten read stays forgotten exactly until one of those events. */
  lemma ForgottenUntilWoken(n: Net, e: Event, u: User, unit: Unit)
    requires Enabled(n, e) && Forgotten(n, u, unit)
    ensures Forgotten(Next(n, e), u, unit) <==> !Wakes(e, u, unit)
  {
    hide Next, Enabled, Forgotten;
    if AtChannel(e) {
      ForgottenAtChannel(n, e, u, unit);
    } else if e.user != u {
      ForgottenAtOthers(n, e, u, unit);
    } else {
      ForgottenAtOwn(n, e, unit);
    }
  }

  /** So it does through any run without them, polls for the same read included. */
  lemma {:induction false} StaysForgotten(n: Net, es: seq<Event>, u: User, unit: Unit)
    requires IsRun(n, es) && Forgotten(n, u, unit) && forall i :: 0 <= i < |es| ==> !Wakes(es[i], u, unit)
    ensures Forgotten(After(n, es), u, unit)
    decreases |es|
  {
    hide Enabled, Next, Forgotten, Wakes;
    if es != [] {
      ForgottenUntilWoken(n, es[0], u, unit);
      StaysForgotten(Next(n, es[0]), es[1..], u, unit);
    }
  }

  /** A read queued before a connection is lost can be forgotten once it is back: whatever the frame
      gap, there is a run to a state in which the master is connected and the read forgotten. */
  lemma ReconnectForgets(start: Net, u: User, unit: Unit) returns (m: Net)
    requires Initial(start) && u in start.masters && start.now + 2 * start.channel.frameGap < TWO_63
    ensures Reachable(m) && Forgotten(m, u, unit) && m.masters[u].connected
  {
    FromStart(start);
    var n1 := Next(start, Connected(u));
    Onward(start, start, Connected(u));
    var n2 := Next(n1, ReadWanted(u, unit));
    Onward(start, n1, ReadWanted(u, unit));
    var n3 := Next(n2, Disconnected(u));
    Onward(start, n2, Disconnected(u));
    assert Cut(start, n3, u, multiset{u}) && n3.masters[u].readQueue == [unit] && n3.masters[u].writeQueue == [];
    m := Bounce(start, n3, u);
    m := Again(start, m, u, unit);
  }

  /** The device is asked to connect; the ask this posts arrives before the connection is up. */
  lemma Again(start: Net, n: Net, u: User, unit: Unit) returns (m: Net)
    requires Cut(start, n, u, multiset{}) && n.masters[u].readQueue == [unit] && n.masters[u].writeQueue == []
    requires n.now + start.channel.frameGap < TWO_63
    ensures Reachable(m) && Forgotten(m, u, unit) && m.masters[u].connected
  {
    var n1 := Next(n, Reconnecting(u));
    Onward(start, n, Reconnecting(u));
    assert Cut(start, n1, u, multiset{u});
    var n2 := Bounce(start, n1, u);
    m := Next(n2, Connected(u));
    Onward(start, n2, Connected(u));
    Holds(start, m);
  }
}
