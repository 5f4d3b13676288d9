/** Sync::Channel: the arbiter that lets one of several users of a bus talk at a time, a frame
    gap apart. */
module Channel {
  import opened Keys

  /** A QObject, by its address. */
  type User = nat

  /** quint32 */
  type Gap = x: int | 0 <= x < 0x1_0000_0000

  const TWO_63: int := 0x8000_0000_0000_0000
  const TWO_64: int := 0x1_0000_0000_0000_0000

  /** quint64 milliseconds */
  type Millis = x: int | 0 <= x < TWO_64

  const LOW_PRIORITY: nat := 50
  const NORMAL_PRIORITY: nat := 100
  const HIGH_PRIORITY: nat := 200

  predicate ValidPriority(p: nat) { p == LOW_PRIORITY || p == NORMAL_PRIORITY || p == HIGH_PRIORITY }

  datatype UserState = UserState(priority: nat, waiting: bool)

  // ---------- the clock ----------

  /** The qint64 with the bits of the quint64 frameGap - (now - lastFrame). */
  function ToWait(frameGap: Gap, lastFrame: Millis, now: Millis): int {
    var passed := (now - lastFrame) % TWO_64;
    var bits := (frameGap - passed) % TWO_64;
    if bits < TWO_63 then bits else bits - TWO_64
  }

  /** QTimer::start takes an int. */
  function AsInt(w: int): int {
    var bits := w % 0x1_0000_0000;
    if bits < 0x8000_0000 then bits else bits - 0x1_0000_0000
  }

  /** The timer is started with the wait itself exactly when that is below 2^31; a longer one becomes
      negative. */
  lemma TimerInterval(w: int)
    requires 0 < w < 0x1_0000_0000
    ensures AsInt(w) == w <==> w < 0x8000_0000
    ensures w >= 0x8000_0000 ==> AsInt(w) < 0 && AsInt(w) + 0x1_0000_0000 == w
  {}

  /** The unsigned subtraction is harmless exactly when the true difference fits a qint64. */
  lemma ToWaitIsDifference(frameGap: Gap, lastFrame: Millis, now: Millis)
    ensures ToWait(frameGap, lastFrame, now) == frameGap - (now - lastFrame) <==>
            -TWO_63 <= frameGap - (now - lastFrame) < TWO_63
  {
    var d := now - lastFrame;
    assert d % TWO_64 == if d < 0 then d + TWO_64 else d;
    var e := frameGap - d % TWO_64;
    assert -TWO_64 < e < TWO_64;
    assert e % TWO_64 == if e < 0 then e + TWO_64 else e;
  }

  // ---------- the arbiter's state ----------

  /** The fields of Channel::Private; timer holds the time at which the running frame timer
      is due. */
  datatype Arbiter = Arbiter(
    users: map<User, UserState>,
    busy: Option<User>,
    lastBusy: Option<User>,
    frameGap: Gap,
    lastFrame: Millis,
    timer: Option<int>)

  function Waiting(c: Arbiter): set<User> { set u | u in c.users && c.users[u].waiting }

  /** The only waiting user, or one of highest priority among those that were not the last to
      be busy. */
  predicate Eligible(c: Arbiter, u: User) {
    && u in Waiting(c)
    && (Waiting(c) == {u} ||
        (c.lastBusy != Some(u) &&
         forall v :: v in Waiting(c) && c.lastBusy != Some(v) ==> c.users[v].priority <= c.users[u].priority))
  }

  predicate Ready(c: Arbiter, t: Millis) { c.busy == None && ToWait(c.frameGap, c.lastFrame, t) <= 0 }

  /** Whom chooseNext may trigger. Users of equal priority come in the order of a hash table,
      which is left open. */
  predicate MayGrant(c: Arbiter, t: Millis, g: Option<User>) {
    if !Ready(c, t) || Waiting(c) == {} then g == None
    else g.Some? && Eligible(c, g.value)
  }

  function SetWaiting(c: Arbiter, u: User, on: bool): Arbiter
    requires u in c.users
  {
    c.(users := c.users[u := c.users[u].(waiting := on)])
  }

  /** The state chooseNext leaves, having read the clock as t and then as t1. */
  function Chosen(c: Arbiter, t: Millis, t1: Millis, g: Option<User>): Arbiter
    requires MayGrant(c, t, g)
  {
    if c.busy.Some? then c
    else if ToWait(c.frameGap, c.lastFrame, t) > 0 then c.(timer := Some(t + AsInt(ToWait(c.frameGap, c.lastFrame, t))))
    else if g == None then c.(lastFrame := t1)
    else SetWaiting(c, g.value, false).(busy := g, lastFrame := t1)
  }

  function Freed(c: Arbiter): Arbiter { c.(lastBusy := c.busy, busy := None) }

  function Fired(c: Arbiter): Arbiter { c.(timer := None) }

  /** A choice exists in every state: somebody waiting was not the last to be busy, unless it
      waits alone. */
  lemma SomeGrant(c: Arbiter, t: Millis) returns (g: Option<User>)
    ensures MayGrant(c, t, g)
  {
    if !Ready(c, t) || Waiting(c) == {} { return None; }
    var w :| w in Waiting(c);
    if Waiting(c) == {w} { return Some(w); }
    var rested := set u | u in Waiting(c) && c.lastBusy != Some(u);
    assert rested != {} by {
      if c.lastBusy == Some(w) {
        OneOfMany(Waiting(c), w);
        var v :| v in Waiting(c) - {w};
        assert v in rested;
      } else {
        assert w in rested;
      }
    }
    var best := Highest(c, rested);
    g := Some(best);
  }

  lemma {:induction false} Highest(c: Arbiter, among: set<User>) returns (best: User)
    requires among != {} && among <= Waiting(c)
    ensures best in among && forall v :: v in among ==> c.users[v].priority <= c.users[best].priority
    decreases among
  {
    var one :| one in among;
    var rest := among - {one};
    assert forall v :: v in among ==> v in rest || v == one;
    best := one;
    if rest != {} {
      var other := Highest(c, rest);
      if c.users[other].priority > c.users[one].priority { best := other; }
    }
  }

  // ---------- the class ----------

  class Channel {
    var userStates: map<User, UserState>
    var busy: Option<User>
    var lastBusy: Option<User>
    const frameGap: Gap
    var lastFrame: Millis
    var frameTimer: Option<int>

    ghost function State(): Arbiter
      reads this
    {
      Arbiter(userStates, busy, lastBusy, frameGap, lastFrame, frameTimer)
    }

    constructor (frameGap: Gap, now: Millis)
      ensures State() == Arbiter(map[], None, None, frameGap, now, None)
    {
      userStates, busy, lastBusy, this.frameGap, lastFrame, frameTimer := map[], None, None, frameGap, now, None;
    }

    /** False for the invalid_argument exception. */
    method RegisterUser(user: User, priority: nat) returns (ok: bool)
      modifies this
      ensures ok <==> priority == 50 || priority == 100 || priority == 200
      ensures State() ==
              if ok then old(State()).(users := old(userStates)[user := UserState(priority, false)]) else old(State())
    {
      if priority != NORMAL_PRIORITY && priority != LOW_PRIORITY && priority != HIGH_PRIORITY { return false; }
      userStates := userStates[user := UserState(priority, false)];
      ok := true;
    }

    /** The trigger signal is the result. */
    method OnJobDone(t: Millis, t1: Millis) returns (trigger: Option<User>)
      modifies this
      ensures MayGrant(Freed(old(State())), t, trigger)
      ensures State() == Chosen(Freed(old(State())), t, t1, trigger)
    {
      lastBusy := busy;
      busy := None;
      trigger := ChooseNext(t, t1);
    }

    method AskTrigger(sender: User, t: Millis, t1: Millis) returns (trigger: Option<User>)
      requires sender in userStates
      modifies this
      ensures MayGrant(SetWaiting(old(State()), sender, true), t, trigger)
      ensures State() == Chosen(SetWaiting(old(State()), sender, true), t, t1, trigger)
    {
      userStates := userStates[sender := userStates[sender].(waiting := true)];
      trigger := ChooseNext(t, t1);
    }

    method OnTimeout(t: Millis, t1: Millis) returns (trigger: Option<User>)
      modifies this
      ensures MayGrant(Fired(old(State())), t, trigger)
      ensures State() == Chosen(Fired(old(State())), t, t1, trigger)
    {
      frameTimer := None;
      trigger := ChooseNext(t, t1);
    }

    method ChooseNext(t: Millis, t1: Millis) returns (trigger: Option<User>)
      modifies this
      ensures MayGrant(old(State()), t, trigger)
      ensures State() == Chosen(old(State()), t, t1, trigger)
    {
      hide ToWait;
      trigger := None;
      if busy.Some? { return; }
      var toWait := ToWait(frameGap, lastFrame, t);
      if toWait > 0 {
        frameTimer := Some(t + AsInt(toWait));
        return;
      }
      var allWaiting := set u | u in userStates && userStates[u].waiting;
      assert allWaiting == Waiting(State());
      var size := |allWaiting|;
      if size > 1 {
        var best := MaxElement(allWaiting);
        OneOfMany(allWaiting, best);
        Activate(best);
        trigger := Some(best);
      } else if size > 0 {
        var who :| who in allWaiting;
        OneOfMany(allWaiting, who);
        Activate(who);
        trigger := Some(who);
      }
      lastFrame := t1;
    }

    /** max_element over the waiting users other than the last busy one. */
    method MaxElement(allWaiting: set<User>) returns (best: User)
      requires allWaiting == Waiting(State()) && |allWaiting| > 1
      ensures best in allWaiting && lastBusy != Some(best)
      ensures forall v :: v in allWaiting && lastBusy != Some(v) ==> userStates[v].priority <= userStates[best].priority
    {
      var found: Option<User> := None;
      var todo := allWaiting;
      while todo != {}
        invariant todo <= allWaiting
        invariant found.Some? ==> found.value in allWaiting && lastBusy != Some(found.value)
        invariant forall v :: v in allWaiting - todo && lastBusy != Some(v) ==>
          found.Some? && userStates[v].priority <= userStates[found.value].priority
        decreases todo
      {
        var state :| state in todo;
        if lastBusy != Some(state) && (found == None || userStates[found.value].priority < userStates[state].priority) {
          found := Some(state);
        }
        todo := todo - {state};
      }
      assert found.Some? by {
        var a :| a in allWaiting;
        OneOfMany(allWaiting, a);
        var b :| b in allWaiting - {a};
        assert a in allWaiting - todo && b in allWaiting - todo;
      }
      best := found.value;
    }

    method Activate(who: User)
      requires who in userStates
      modifies this
      ensures State() == SetWaiting(old(State()), who, false).(busy := Some(who))
    {
      userStates := userStates[who := userStates[who].(waiting := false)];
      busy := Some(who);
    }
  }

  lemma OneOfMany(s: set<User>, u: User)
    requires u in s
    ensures |s| > 1 <==> s != {u}
    ensures s != {u} ==> s - {u} != {}
  {
    assert |s - {u}| == |s| - 1;
    assert s == (s - {u}) + {u};
  }
}
