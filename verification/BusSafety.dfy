/** What every run of the bus keeps, and what follows from it. */
module BusSafety {
  import opened Keys
  import opened Channel
  import opened ModbusUnits
  import opened MasterQueues
  import opened Bus

  // ---------- the invariant ----------

  ghost predicate Shape(n: Net) {
    && n.masters.Keys == n.channel.users.Keys
    && n.channel.lastFrame <= n.now < TWO_63
    && n.channel.frameGap < 0x8000_0000
  }

  function Executing(n: Net, u: User): nat { if u in n.masters && n.masters[u].inFlight.Some? then 1 else 0 }

  function Token(n: Net, u: User): nat { n.triggers[u] + Executing(n, u) + n.dones[u] }

  /** Exactly the busy user holds a trigger, a request or a job-done signal, and exactly one. */
  ghost predicate OneToken(n: Net) {
    forall u: User :: Token(n, u) == if n.channel.busy == Some(u) then 1 else 0
  }

  predicate Awake(c: Arbiter) {
    c.busy == None && Waiting(c) != {} ==> c.timer == Some(c.lastFrame + c.frameGap)
  }

  ghost predicate Pending(n: Net, u: User) {
    u in n.asks || u in Waiting(n.channel) || u in n.triggers || Executing(n, u) == 1
  }

  ghost predicate NoneLost(n: Net) {
    forall u :: u in n.masters && HasWork(n.masters[u]) ==> Pending(n, u) || u in n.dropped
  }

  function Granted(gs: seq<Grant>, u: User): nat {
    if gs == [] then 0 else Granted(gs[..|gs| - 1], u) + if gs[|gs| - 1].user == u then 1 else 0
  }

  function Flag(c: Arbiter, u: User): nat { if u in Waiting(c) then 1 else 0 }

  /** Every grant, waiting flag and ask in flight is covered by an ask of its own. */
  ghost predicate Covered(n: Net) {
    forall u :: Granted(n.grants, u) + Flag(n.channel, u) + n.asks[u] <= n.asked[u]
  }

  /** Arbiter state c comes after grant g and before the next one. */
  ghost predicate Follows(g: Grant, c: Arbiter) {
    && c.users.Keys == g.before.users.Keys && c.frameGap == g.before.frameGap
    && (forall u :: u in c.users ==> c.users[u].priority == g.before.users[u].priority)
    && (forall u :: u in Waiting(g.before) && u != g.user ==> u in Waiting(c))
    && (if c.busy.Some? then c.busy == Some(g.user) else c.lastBusy == Some(g.user))
    && g.done <= c.lastFrame
  }

  ghost predicate Sound(g: Grant) {
    MayGrant(g.before, g.at, Some(g.user)) && g.before.lastFrame <= g.at <= g.done < TWO_63 &&
        g.before.frameGap < 0x8000_0000
  }

  ghost predicate Past(gs: seq<Grant>, c: Arbiter) {
    && (forall i :: 0 <= i < |gs| ==> Sound(gs[i]))
    && (forall i :: 0 < i < |gs| ==> Follows(gs[i - 1], gs[i].before))
    && (gs != [] ==> Follows(gs[|gs| - 1], c))
  }

  ghost predicate Invariant(n: Net) {
    Shape(n) && OneToken(n) && Awake(n.channel) && NoneLost(n) && Covered(n) && Past(n.grants, n.channel)
  }

  // ---------- each part is kept ----------

  /** What a choice does to the arbiter, whatever made it. */
  lemma ChosenFacts(c: Arbiter, t: Millis, t1: Millis, g: Option<User>)
    requires MayGrant(c, t, g)
    ensures var c1 := Chosen(c, t, t1, g);
            && c1.users.Keys == c.users.Keys && c1.frameGap == c.frameGap
            && (c1.lastFrame == c.lastFrame || c1.lastFrame == t1)
            && c1.busy == (if g.Some? then g else c.busy)
            && (g.Some? ==> c.busy == None && g.value in Waiting(c))
            && Waiting(c1) == Waiting(c) - (if g.Some? then {g.value} else {})
  {
    hide ToWait;
  }

  /** The channel state on which chooseNext is run by an event of the channel. */
  function Met(n: Net, e: Event): Arbiter
    requires Enabled(n, e) && (e.AskArrives? || e.DoneArrives? || e.TimerFires?)
  {
    match e
    case AskArrives(u, t, t1, g) => SetWaiting(n.channel, u, true)
    case DoneArrives(u, t, t1, g) => Freed(n.channel)
    case TimerFires(t, t1, g) => Fired(n.channel)
  }

  predicate AtChannel(e: Event) { e.AskArrives? || e.DoneArrives? || e.TimerFires? }

  lemma PostKeeps(n: Net, v: User, s: Signal)
    ensures var n1 := Post(n, v, s);
            n1.channel == n.channel && n1.grants == n.grants && n1.now == n.now && n1.masters == n.masters
    ensures var n1 := PostAsk(n, v);
            n1.channel == n.channel && n1.grants == n.grants && n1.now == n.now && n1.masters == n.masters
  {}

  /** A master's event leaves the channel alone. */
  lemma ChannelAside(n: Net, e: Event)
    requires Enabled(n, e) && !AtChannel(e)
    ensures var n1 := Next(n, e);
            n1.channel == n.channel && n1.grants == n.grants && n1.now == n.now
    ensures e.user in n.masters && Next(n, e).masters.Keys == n.masters.Keys
  {
    hide ExecuteNext, EnqueueRead, EnqueueWrite, HasWork, MayGrant, Post, PostAsk;
    match e
    case TriggerArrives(w) =>
      var (m, s) := ExecuteNext(n.masters[w]);
      PostKeeps(WithMaster(n, w, m).(triggers := n.triggers - multiset{w}), w, s);
    case ReplyDestroyed(w) =>
      var n1 := WithMaster(n, w, n.masters[w].(inFlight := None));
      PostKeeps(n1, w, AllQueriesDone);
      PostKeeps(Post(n1, w, AllQueriesDone), w, AllQueriesDone);
    case ReadWanted(w, unit) =>
      var (m, s) := EnqueueRead(n.masters[w], unit);
      PostKeeps(WithMaster(n, w, m), w, s);
    case WriteWanted(w, unit) =>
      var (m, s) := EnqueueWrite(n.masters[w], unit);
      PostKeeps(WithMaster(n, w, m), w, s);
    case Reconnecting(w) => PostKeeps(n, w, Silence);
    case _ =>
  }

  lemma PostFacts(n: Net, v: User, s: Signal, u: User)
    requires u != v
    ensures var n1 := Post(n, v, s);
            && n1.masters == n.masters && n1.triggers == n.triggers
            && n1.asks[u] == n.asks[u] && n1.dones[u] == n.dones[u] && n1.asked[u] == n.asked[u]
            && (u in n1.dropped <==> u in n.dropped)
  {}

  /** A master's event leaves everything of the other users alone. */
  lemma OthersAside(n: Net, e: Event, u: User)
    requires Enabled(n, e) && !AtChannel(e) && u != e.user
    ensures var n1 := Next(n, e);
            n1.asks[u] == n.asks[u] && n1.triggers[u] == n.triggers[u] && n1.dones[u] == n.dones[u] &&
            n1.asked[u] == n.asked[u]
    ensures var n1 := Next(n, e);
            (u in n1.dropped <==> u in n.dropped) &&
            (u in n.masters ==> u in n1.masters && n1.masters[u] == n.masters[u])
  {
    hide ExecuteNext, EnqueueRead, EnqueueWrite, HasWork, MayGrant, Post, PostAsk;
    match e
    case TriggerArrives(w) =>
      var (m, s) := ExecuteNext(n.masters[w]);
      PostFacts(WithMaster(n, w, m).(triggers := n.triggers - multiset{w}), w, s, u);
    case ReplyDestroyed(w) => OthersAsideDone(n, w, u);
    case ReadWanted(w, unit) =>
      var (m, s) := EnqueueRead(n.masters[w], unit);
      PostFacts(WithMaster(n, w, m), w, s, u);
    case WriteWanted(w, unit) =>
      var (m, s) := EnqueueWrite(n.masters[w], unit);
      PostFacts(WithMaster(n, w, m), w, s, u);
    case Reconnecting(w) => PostAskFacts(n, w, u);
    case _ =>
  }

  lemma OthersAsideDone(n: Net, w: User, u: User)
    requires Enabled(n, ReplyDestroyed(w)) && u != w
    ensures var n1 := Next(n, ReplyDestroyed(w));
            && n1.asks[u] == n.asks[u] && n1.triggers[u] == n.triggers[u] && n1.dones[u] == n.dones[u] &&
               n1.asked[u] == n.asked[u]
            && (u in n1.dropped <==> u in n.dropped)
            && (u in n.masters ==> u in n1.masters && n1.masters[u] == n.masters[u])
  {
    hide Post, PostAsk;
    var n1 := WithMaster(n, w, n.masters[w].(inFlight := None));
    PostFacts(n1, w, AllQueriesDone, u);
    PostAskFacts(Post(n1, w, AllQueriesDone), w, u);
  }

  lemma PostAskFacts(n: Net, v: User, u: User)
    requires u != v
    ensures var n1 := PostAsk(n, v);
            && n1.masters == n.masters && n1.triggers == n.triggers
            && n1.asks[u] == n.asks[u] && n1.dones[u] == n.dones[u] && n1.asked[u] == n.asked[u]
            && (u in n1.dropped <==> u in n.dropped)
  {
    assert PostAsk(n, v) == Post(n, v, AskTrigger);
    PostFacts(n, v, AskTrigger, u);
  }

  lemma ShapeKept(n: Net, e: Event)
    requires Shape(n) && Enabled(n, e)
    ensures Shape(Next(n, e))
  {
    if AtChannel(e) {
      hide Chosen, MayGrant, Waiting;
      ChosenFacts(Met(n, e), e.t, e.t1, e.grant);
    } else {
      hide Next, Enabled;
      ChannelAside(n, e);
    }
  }

  lemma TokenKept(n: Net, e: Event)
    requires Shape(n) && OneToken(n) && Enabled(n, e)
    ensures OneToken(Next(n, e))
  {
    forall u: User ensures Token(Next(n, e), u) == if Next(n, e).channel.busy == Some(u) then 1 else 0 {
      assert Token(n, u) == if n.channel.busy == Some(u) then 1 else 0;
      if AtChannel(e) { TokenMoves(n, e, u); } else { TokenStays(n, e, u); }
    }
  }

  lemma TokenMoves(n: Net, e: Event, u: User)
    requires Shape(n) && OneToken(n) && Enabled(n, e) && AtChannel(e)
    ensures Token(Next(n, e), u) == if Next(n, e).channel.busy == Some(u) then 1 else 0
  {
    MastersAside(n, e, u);
    hide Chosen, MayGrant, Waiting, Next, Enabled;
    ChosenFacts(Met(n, e), e.t, e.t1, e.grant);
    assert Token(n, u) == if n.channel.busy == Some(u) then 1 else 0;
    if e.DoneArrives? { assert Token(n, e.user) == if n.channel.busy == Some(e.user) then 1 else 0; }
  }

  lemma TokenStays(n: Net, e: Event, u: User)
    requires Shape(n) && OneToken(n) && Enabled(n, e) && !AtChannel(e)
    ensures Token(Next(n, e), u) == if Next(n, e).channel.busy == Some(u) then 1 else 0
  {
    ChannelAside(n, e);
    assert Token(n, u) == if n.channel.busy == Some(u) then 1 else 0;
    hide Next, Enabled;
    if u == e.user { TokenOwn(n, e); } else { OthersAside(n, e, u); }
  }

  lemma TokenOwn(n: Net, e: Event)
    requires OneToken(n) && Enabled(n, e) && !AtChannel(e)
    ensures Token(Next(n, e), e.user) == Token(n, e.user)
  {
    assert Token(n, e.user) <= 1;
    hide MayGrant, HasWork, Queued, OneToken;
    match e
    case TriggerArrives(u) => TokenTakesTurn(n, u);
    case ReplyDestroyed(u) => TokenFinishes(n, u);
    case _ =>
  }

  lemma TokenTakesTurn(n: Net, u: User)
    requires Enabled(n, TriggerArrives(u)) && Token(n, u) <= 1
    ensures Token(Next(n, TriggerArrives(u)), u) == Token(n, u)
  {}

  lemma TokenFinishes(n: Net, u: User)
    requires Enabled(n, ReplyDestroyed(u))
    ensures Token(Next(n, ReplyDestroyed(u)), u) == Token(n, u)
  {}

  lemma ChosenAwake(c: Arbiter, t: Millis, t1: Millis, g: Option<User>)
    requires MayGrant(c, t, g) && c.lastFrame <= t <= t1 < TWO_63 && c.frameGap < 0x8000_0000
    ensures Awake(Chosen(c, t, t1, g))
  {
    ToWaitIsDifference(c.frameGap, c.lastFrame, t);
    hide ToWait;
  }

  lemma AwakeKept(n: Net, e: Event)
    requires Shape(n) && Awake(n.channel) && Enabled(n, e)
    ensures Awake(Next(n, e).channel)
  {
    match e
    case AskArrives(u, t, t1, g) => ChosenAwake(SetWaiting(n.channel, u, true), t, t1, g);
    case DoneArrives(u, t, t1, g) => ChosenAwake(Freed(n.channel), t, t1, g);
    case TimerFires(t, t1, g) => ChosenAwake(Fired(n.channel), t, t1, g);
    case _ =>
  }

  lemma WorkKept(n: Net, e: Event)
    requires Shape(n) && NoneLost(n) && Enabled(n, e)
    ensures NoneLost(Next(n, e))
  {
    hide Next, Enabled, Pending, HasWork;
    var n1 := Next(n, e);
    forall u | u in n1.masters && HasWork(n1.masters[u]) ensures Pending(n1, u) || u in n1.dropped {
      if AtChannel(e) {
        MastersAside(n, e, u);
        WorkAtChannel(n, e, u);
      } else {
        WorkAtMaster(n, e, u);
      }
    }
  }

  /** An event of the channel leaves the masters alone. */
  lemma MastersAside(n: Net, e: Event, u: User)
    requires Enabled(n, e) && AtChannel(e)
    ensures var n1 := Next(n, e); n1.masters == n.masters && n1.dropped == n.dropped && n1.asked == n.asked
    ensures Next(n, e).triggers[u] == n.triggers[u] + One(e.grant)[u]
    ensures e.AskArrives? && e.user == u ==> n.asks[u] > 0
    ensures e.DoneArrives? ==> e.user in n.dones
    ensures Next(n, e).dones[u] == n.dones[u] - (if e.DoneArrives? && e.user == u then 1 else 0)
    ensures Next(n, e).asks[u] == n.asks[u] - (if e.AskArrives? && e.user == u then 1 else 0)
    ensures Next(n, e).grants ==
            (if e.grant.Some? then n.grants + [Grant(Met(n, e), e.t, e.t1, e.grant.value)] else n.grants)
    ensures MayGrant(Met(n, e), e.t, e.grant) && Next(n, e).channel == Chosen(Met(n, e), e.t, e.t1, e.grant)
  {
    hide Chosen, MayGrant, SetWaiting, Freed, Fired, One;
    match e
    case AskArrives(_, _, _, _) =>
    case DoneArrives(_, _, _, _) =>
    case TimerFires(_, _, _) =>
  }

  lemma MetWaiting(n: Net, e: Event, u: User)
    requires Enabled(n, e) && AtChannel(e)
    ensures u in Waiting(Met(n, e)) <==> u in Waiting(n.channel) || (e.AskArrives? && u == e.user)
  {
    hide Chosen, MayGrant, Next;
  }

  lemma WorkAtChannel(n: Net, e: Event, u: User)
    requires Shape(n) && NoneLost(n) && Enabled(n, e) && AtChannel(e)
    requires u in n.masters && HasWork(n.masters[u])
    ensures Pending(Next(n, e), u) || u in Next(n, e).dropped
  {
    hide Chosen, MayGrant, HasWork, Next, Enabled, Met, Waiting;
    MastersAside(n, e, u);
    MetWaiting(n, e, u);
    ChosenFacts(Met(n, e), e.t, e.t1, e.grant);
    assert Pending(n, u) || u in n.dropped;
  }

  lemma WorkAtMaster(n: Net, e: Event, u: User)
    requires Shape(n) && NoneLost(n) && Enabled(n, e) && !AtChannel(e)
    requires u in Next(n, e).masters && HasWork(Next(n, e).masters[u])
    ensures Pending(Next(n, e), u) || u in Next(n, e).dropped
  {
    ChannelAside(n, e);
    assert u in n.masters && (HasWork(n.masters[u]) ==> Pending(n, u) || u in n.dropped);
    hide Next, Enabled, HasWork;
    if u == e.user { WorkOwn(n, e); } else { OthersAside(n, e, u); }
  }

  lemma WorkOwn(n: Net, e: Event)
    requires Enabled(n, e) && !AtChannel(e) && e.user in n.masters && Next(n, e).channel == n.channel
    requires HasWork(n.masters[e.user]) ==> Pending(n, e.user) || e.user in n.dropped
    ensures HasWork(Next(n, e).masters[e.user]) ==> Pending(Next(n, e), e.user) || e.user in Next(n, e).dropped
  {
    hide MayGrant, Waiting, Queued;
  }

  lemma CoveredKept(n: Net, e: Event)
    requires Shape(n) && Covered(n) && Enabled(n, e)
    ensures Covered(Next(n, e))
  {
    hide Next, Enabled, Granted, Flag;
    var n1 := Next(n, e);
    forall u ensures Granted(n1.grants, u) + Flag(n1.channel, u) + n1.asks[u] <= n1.asked[u] {
      assert Granted(n.grants, u) + Flag(n.channel, u) + n.asks[u] <= n.asked[u];
      if AtChannel(e) { CoveredAtChannel(n, e, u); } else { CoveredAtMaster(n, e, u); }
    }
  }

  lemma CoveredAtChannel(n: Net, e: Event, u: User)
    requires Shape(n) && Enabled(n, e) && AtChannel(e)
    requires Granted(n.grants, u) + Flag(n.channel, u) + n.asks[u] <= n.asked[u]
    ensures var n1 := Next(n, e); Granted(n1.grants, u) + Flag(n1.channel, u) + n1.asks[u] <= n1.asked[u]
  {
    hide Chosen, MayGrant, Granted, Next, Enabled, Met, Waiting;
    MastersAside(n, e, u);
    MetWaiting(n, e, u);
    ChosenFacts(Met(n, e), e.t, e.t1, e.grant);
    if e.grant.Some? { GrantedMore(n.grants, Grant(Met(n, e), e.t, e.t1, e.grant.value), u); }
  }

  lemma CoveredAtMaster(n: Net, e: Event, u: User)
    requires Shape(n) && Enabled(n, e) && !AtChannel(e)
    requires Granted(n.grants, u) + Flag(n.channel, u) + n.asks[u] <= n.asked[u]
    ensures var n1 := Next(n, e); Granted(n1.grants, u) + Flag(n1.channel, u) + n1.asks[u] <= n1.asked[u]
  {
    hide MayGrant, Granted, Waiting, Queued, HasWork;
  }

  lemma GrantedMore(gs: seq<Grant>, g: Grant, u: User)
    ensures Granted(gs + [g], u) == Granted(gs, u) + if g.user == u then 1 else 0
  {
    assert (gs + [g])[..|gs|] == gs;
  }

  lemma PastThrough(gs: seq<Grant>, c: Arbiter, t: Millis, t1: Millis, g: Option<User>)
    requires Past(gs, c) && MayGrant(c, t, g) && c.lastFrame <= t <= t1 < TWO_63 && c.frameGap < 0x8000_0000
    ensures Past(if g.Some? then gs + [Grant(c, t, t1, g.value)] else gs, Chosen(c, t, t1, g))
  {
    hide ToWait;
  }

  lemma PastMet(n: Net, e: Event)
    requires OneToken(n) && Past(n.grants, n.channel) && Enabled(n, e) && AtChannel(e)
    ensures Past(n.grants, Met(n, e))
  {
    hide MayGrant, Sound, Chosen;
    if e.DoneArrives? { assert Token(n, e.user) >= 1; }
  }

  lemma PastKept(n: Net, e: Event)
    requires Shape(n) && OneToken(n) && Past(n.grants, n.channel) && Enabled(n, e)
    ensures Past(Next(n, e).grants, Next(n, e).channel)
  {
    if AtChannel(e) {
      MetClock(n, e);
      PastMet(n, e);
      MastersAside(n, e, 0);
      hide Next, Enabled, Past, Met, MayGrant, Chosen;
      PastThrough(n.grants, Met(n, e), e.t, e.t1, e.grant);
    } else {
      hide Next, Enabled, Past;
      ChannelAside(n, e);
    }
  }

  lemma MetClock(n: Net, e: Event)
    requires Shape(n) && Enabled(n, e) && AtChannel(e)
    ensures var c := Met(n, e); c.lastFrame <= e.t <= e.t1 < TWO_63 && c.frameGap < 0x8000_0000
  {
    hide MayGrant;
  }

  // ---------- over every run ----------

  lemma InvariantKept(n: Net, e: Event)
    requires Invariant(n) && Enabled(n, e)
    ensures Invariant(Next(n, e))
  {
    hide Shape, OneToken, Awake, NoneLost, Covered, Past, Enabled, Next;
    ShapeKept(n, e);
    TokenKept(n, e);
    AwakeKept(n, e);
    WorkKept(n, e);
    CoveredKept(n, e);
    PastKept(n, e);
  }

  lemma {:induction false} RunKeeps(n: Net, es: seq<Event>)
    requires Invariant(n) && IsRun(n, es)
    ensures Invariant(After(n, es))
    decreases |es|
  {
    hide Invariant, Enabled, Next;
    if es != [] {
      InvariantKept(n, es[0]);
      RunKeeps(Next(n, es[0]), es[1..]);
    }
  }

  lemma InitialInvariant(n: Net)
    requires Initial(n)
    ensures Invariant(n)
  {}

  /** The invariant holds at every moment of every run. */
  lemma Always(n: Net)
    requires Reachable(n)
    ensures Invariant(n)
  {
    hide Invariant, Initial;
    var start, es :| Initial(start) && IsRun(start, es) && n == After(start, es);
    InitialInvariant(start);
    RunKeeps(start, es);
  }
}
