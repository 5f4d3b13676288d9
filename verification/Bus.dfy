/** One channel and its masters, joined by queued signals: every run of asks, triggers, job-done
    signals, frame timers, requests and lost connections. */
module Bus {
  import opened Keys
  import opened Channel
  import opened ModbusUnits
  import opened MasterQueues

  /** A choice made by chooseNext: the state it was made in, the clock before and after. */
  datatype Grant = Grant(before: Arbiter, at: Millis, done: Millis, user: User)

  /** The signals posted and not yet delivered are multisets, so that they may arrive in any
      order. The last three fields record the past: all asks ever posted, all grants, and the
      users that were triggered while disconnected, with work queued, and have not asked since. */
  datatype Net = Net(
    channel: Arbiter,
    masters: map<User, Master>,
    asks: multiset<User>,
    triggers: multiset<User>,
    dones: multiset<User>,
    now: Millis,
    asked: multiset<User>,
    grants: seq<Grant>,
    dropped: set<User>)

  datatype Event =
    | AskArrives(user: User, t: Millis, t1: Millis, grant: Option<User>)
    | DoneArrives(user: User, t: Millis, t1: Millis, grant: Option<User>)
    | TimerFires(t: Millis, t1: Millis, grant: Option<User>)
    | TriggerArrives(user: User)
    | ReplyDestroyed(user: User)
    | ReadWanted(user: User, unit: Unit)
    | WriteWanted(user: User, unit: Unit)
    | Connected(user: User)
    | Disconnected(user: User)
    | Reconnecting(user: User)

  // ---------- steps ----------

  function One(g: Option<User>): multiset<User> { if g.Some? then multiset{g.value} else multiset{} }

  /** chooseNext on c, with its trigger posted. */
  function Choose(n: Net, c: Arbiter, t: Millis, t1: Millis, g: Option<User>): Net
    requires MayGrant(c, t, g)
  {
    n.(channel := Chosen(c, t, t1, g), now := t1, triggers := n.triggers + One(g),
       grants := if g.Some? then n.grants + [Grant(c, t, t1, g.value)] else n.grants)
  }

  function PostAsk(n: Net, u: User): Net {
    n.(asks := n.asks + multiset{u}, asked := n.asked + multiset{u}, dropped := n.dropped - {u})
  }

  function Post(n: Net, u: User, s: Signal): Net {
    match s
    case Silence => n
    case AskTrigger => PostAsk(n, u)
    case AllQueriesDone => n.(dones := n.dones + multiset{u})
  }

  function WithMaster(n: Net, u: User, m: Master): Net { n.(masters := n.masters[u := m]) }

  /** The clock does not run backwards and stays below 2^63. */
  predicate Timely(n: Net, t: Millis, t1: Millis) { n.now <= t <= t1 < TWO_63 }

  predicate Enabled(n: Net, e: Event) {
    match e
    case AskArrives(u, t, t1, g) =>
      u in n.asks && u in n.channel.users && Timely(n, t, t1) && MayGrant(SetWaiting(n.channel, u, true), t, g)
    case DoneArrives(u, t, t1, g) => u in n.dones && Timely(n, t, t1) && MayGrant(Freed(n.channel), t, g)
    case TimerFires(t, t1, g) => n.channel.timer.Some? && Timely(n, t, t1) && MayGrant(Fired(n.channel), t, g)
    case TriggerArrives(u) => u in n.triggers && u in n.masters
    case ReplyDestroyed(u) => u in n.masters && n.masters[u].inFlight.Some?
    case ReadWanted(u, unit) => u in n.masters && n.masters[u].connected
    case WriteWanted(u, unit) => u in n.masters
    case Connected(u) => u in n.masters
    case Disconnected(u) => u in n.masters
    case Reconnecting(u) => u in n.masters
  }

  function Next(n: Net, e: Event): Net
    requires Enabled(n, e)
  {
    match e
    case AskArrives(u, t, t1, g) => Choose(n.(asks := n.asks - multiset{u}), SetWaiting(n.channel, u, true), t, t1, g)
    case DoneArrives(u, t, t1, g) => Choose(n.(dones := n.dones - multiset{u}), Freed(n.channel), t, t1, g)
    case TimerFires(t, t1, g) => Choose(n, Fired(n.channel), t, t1, g)
    case TriggerArrives(u) =>
      var (m, s) := ExecuteNext(n.masters[u]);
      var n1 := Post(WithMaster(n, u, m).(triggers := n.triggers - multiset{u}), u, s);
      if !m.connected && HasWork(m) then n1.(dropped := n1.dropped + {u}) else n1
    case ReplyDestroyed(u) =>
      // queryDone is connected to onJobDone and to askTrigger
      PostAsk(Post(WithMaster(n, u, n.masters[u].(inFlight := None)), u, AllQueriesDone), u)
    case ReadWanted(u, unit) => var (m, s) := EnqueueRead(n.masters[u], unit); Post(WithMaster(n, u, m), u, s)
    case WriteWanted(u, unit) => var (m, s) := EnqueueWrite(n.masters[u], unit); Post(WithMaster(n, u, m), u, s)
    case Connected(u) => WithMaster(n, u, n.masters[u].(connected := true))
    case Disconnected(u) => WithMaster(n, u, n.masters[u].(connected := false))
    case Reconnecting(u) => if HasWork(n.masters[u]) then PostAsk(n, u) else n
  }

  /** Masters attached, nothing queued and nothing posted. */
  ghost predicate Initial(n: Net) {
    && n.masters.Keys == n.channel.users.Keys
    && (forall u :: u in n.masters ==> n.masters[u] == Master([], [], false, None))
    && (forall u :: u in n.channel.users ==> !n.channel.users[u].waiting)
    && n.channel.busy == None && n.channel.lastBusy == None && n.channel.timer == None
    && n.channel.lastFrame <= n.now < TWO_63 && n.channel.frameGap < 0x8000_0000
    && n.asks == n.triggers == n.dones == n.asked == multiset{} && n.grants == [] && n.dropped == {}
  }

  ghost predicate IsRun(n: Net, es: seq<Event>)
    decreases |es|
  {
    es == [] || (Enabled(n, es[0]) && IsRun(Next(n, es[0]), es[1..]))
  }

  ghost function After(n: Net, es: seq<Event>): Net
    requires IsRun(n, es)
    decreases |es|
  {
    if es == [] then n else After(Next(n, es[0]), es[1..])
  }

  ghost predicate Reachable(n: Net) {
    exists start, es :: Initial(start) && IsRun(start, es) && n == After(start, es)
  }

  lemma {:induction false} RunMore(n: Net, es: seq<Event>, e: Event)
    requires IsRun(n, es) && Enabled(After(n, es), e)
    ensures IsRun(n, es + [e]) && After(n, es + [e]) == Next(After(n, es), e)
    decreases |es|
  {
    hide Enabled, Next;
    if es == [] {
      assert (es + [e])[1..] == [];
      assert IsRun(Next(n, e), []);
    } else {
      RunMore(Next(n, es[0]), es[1..], e);
      assert (es + [e])[1..] == es[1..] + [e];
    }
  }
}
