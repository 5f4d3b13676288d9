/** Every interleaving of commands, messages, polls and callbacks: handles stay safe, packs reply
    once, and the requester's callback matches what happened. */
module RedisRuns {
  import opened Keys
  import opened RedisContexts

  datatype Event =
    | Commanded(request: Request, accepted: bool)
    | Messaged(keyed: bool, accepted: bool)
    | Polled(connected: bool, accepted: bool)
    | Answered(handle: Handle, answer: Answer, accepted: bool)

  /** Handles do not wrap; only the object callback meets an empty hash. */
  predicate Enabled(w: World, e: Event) {
    match e
    case Commanded(r, _) => !r.Write? && (r.PackOf? ==> r.commands != []) && w.current + 1 < HANDLES
    case Messaged(_, _) => w.current + 1 < HANDLES
    case Polled(_, _) => w.current + 1 < HANDLES
    case Answered(h, a, _) => h in w.inFlight && w.Knows(h) && (a == EmptyHash ==> ReadsObject(w.lives[h]))
  }

  predicate ReadsObject(l: Life) { l.started != [] && l.started[|l.started| - 1].ReadObject? }

  function Next(w: World, e: Event): World
    requires Enabled(w, e)
  {
    match e
    case Commanded(r, acc) => OnCommand(w, r, acc)
    case Messaged(keyed, acc) => OnMsg(w, keyed, acc)
    case Polled(connected, acc) => OnPoll(w, connected, acc)
    case Answered(h, a, acc) => OnCallback(w, h, a, acc)
  }

  // ---------- the life of a context ----------

  /** A command of the context has been started and not yet been answered. */
  ghost predicate Awaiting(l: Life, c: Ctx) {
    && l.sent == []
    && match l.request
       case PackOf(cs) =>
         && !Refused(l.request) && |l.outcomes| < |cs| && AllOk(l.outcomes)
         && c == PackContext(cs, l.outcomes, false) && l.started == cs[..|l.outcomes| + 1]
       case Single(cm) => c == SimpleContext(cm, false) && l.started == [cm] && l.outcomes == []
       case Read => c == SimpleMsgContext(false) && l.started == [OBJECT] && l.outcomes == []
       case Write => c == NoReplyContext(false) && l.started == [OBJECT_WRITE] && l.outcomes == []
  }

  /** The context is about to start command cm. */
  ghost predicate Starting(l: Life, c: Ctx, cm: Command) {
    && l.sent == []
    && match l.request
       case PackOf(cs) =>
         && !Refused(l.request) && |l.outcomes| < |cs| && AllOk(l.outcomes) && cm == cs[|l.outcomes|]
         && c == PackContext(cs, l.outcomes, false) && l.started == cs[..|l.outcomes|]
       case Single(s) => c == SimpleContext(s, false) && l.started == [] && l.outcomes == [] && cm == s
       case Read => c == SimpleMsgContext(false) && l.started == [] && l.outcomes == [] && cm == OBJECT
       case Write => c == NoReplyContext(false) && l.started == [] && l.outcomes == [] && cm == OBJECT_WRITE
  }

  /** All but the last of the outcomes are successes, and so is the last if it is number n. */
  predicate UpToFailure(outcomes: seq<bool>, n: nat) {
    && 1 <= |outcomes| <= n
    && (forall i :: 0 <= i < |outcomes| - 1 ==> outcomes[i])
    && (|outcomes| < n ==> !outcomes[|outcomes| - 1])
  }

  function ReplyMsgs(outcomes: seq<bool>): (r: seq<Sent>)
    ensures |r| == |outcomes| && forall i :: 0 <= i < |r| ==> r[i] == ReplyMsg(outcomes[i])
  {
    seq(|outcomes|, i requires 0 <= i < |outcomes| => ReplyMsg(outcomes[i]))
  }

  ghost predicate Finished(l: Life) {
    match l.request
    case PackOf(cs) =>
      && UpToFailure(l.outcomes, |cs|) && l.started == cs[..|l.outcomes|]
      && l.sent == [ReplyPackMsg(Filled(l.outcomes, |cs|), AllOk(Filled(l.outcomes, |cs|)))]
    case Single(cm) =>
      && l.started == [cm] && (|l.outcomes| == 1 || (l.outcomes == [false, true] && cm.ReadObject?))
      && l.sent == ReplyMsgs(l.outcomes)
    case Read => l.started == [OBJECT] && (l.outcomes == [true] || l.outcomes == [false, true]) && l.sent == [PlainMsg]
    case Write => l.started == [OBJECT_WRITE] && |l.outcomes| == 1 && l.sent == []
  }

  ghost predicate Running(w: World, h: Handle) { w.Knows(h) && Awaiting(w.lives[h], w.ctxs[h]) && w.inFlight[h] == 1 }

  ghost predicate Ended(w: World, h: Handle) {
    h in w.lives && Finished(w.lives[h]) && w.inFlight[h] == 0 && (h in w.ctxs ==> w.ctxs[h].done)
  }

  /** A failed read of the object for a plain message: its context is never marked done. */
  ghost predicate Stuck(w: World, h: Handle) {
    w.Knows(h) && w.inFlight[h] == 0 && w.ctxs[h] == SimpleMsgContext(false) &&
        w.lives[h] == Life(Read, [OBJECT], [false], [])
  }

  ghost predicate Sane(w: World, h: Handle) { Running(w, h) || Ended(w, h) || Stuck(w, h) }

  ghost predicate Invariant(w: World) {
    && 1 <= w.current < HANDLES
    && (forall h :: h in w.lives ==> 1 <= h < w.current && Sane(w, h))
    && (forall h :: h in w.ctxs ==> h in w.lives)
    && (forall h :: h in w.inFlight ==> h in w.lives)
  }

  // ---------- a step on one context ----------

  /** Only handle h differs. */
  ghost predicate Only(w: World, w1: World, h: Handle) {
    && w1.current == w.current
    && forall k :: k != h ==>
         && (k in w1.ctxs <==> k in w.ctxs) && (k in w.ctxs ==> w1.ctxs[k] == w.ctxs[k])
         && (k in w1.lives <==> k in w.lives) && (k in w.lives ==> w1.lives[k] == w.lives[k])
         && w1.inFlight[k] == w.inFlight[k]
  }

  lemma FailureEnds(w: World, h: Handle, accepted: bool)
    requires w.Knows(h) && Awaiting(w.lives[h], w.ctxs[h]) && w.inFlight[h] == 0
    ensures var w1 := Replied(w, h, false, accepted); Only(w, w1, h) && Sane(w1, h)
  {}

  lemma StartKeeps(w: World, h: Handle, c: Command, accepted: bool)
    requires w.Knows(h) && Starting(w.lives[h], w.ctxs[h], c) && w.inFlight[h] == 0
    ensures var w1 := Handled(w, c, h, accepted); Only(w, w1, h) && Sane(w1, h)
  {
    var w1 := Started(w, h, c);
    assert Awaiting(w1.lives[h], w1.ctxs[h]);
    if c.Unsupported? || !accepted { FailureEnds(w1, h, accepted); }
  }

  /** The context is a pack with commands left after the one that waits. */
  predicate MoreToRun(c: Ctx) { c.PackContext? && |c.replies| + 1 < |c.commands| }

  lemma SuccessEnds(w: World, h: Handle, accepted: bool)
    requires w.Knows(h) && Awaiting(w.lives[h], w.ctxs[h]) && w.inFlight[h] == 0 && !MoreToRun(w.ctxs[h])
    ensures var w1 := Replied(w, h, true, accepted); Only(w, w1, h) && Sane(w1, h)
  {}

  /** The context with one more success, before it starts its next command. */
  function Advanced(w: World, h: Handle): World
    requires w.Knows(h) && MoreToRun(w.ctxs[h])
  {
    SetCtx(Recorded(w, h, true), h, PackContext(w.ctxs[h].commands, w.ctxs[h].replies + [true], w.ctxs[h].done))
  }

  lemma AdvancedStarts(w: World, h: Handle, accepted: bool)
    requires w.Knows(h) && Awaiting(w.lives[h], w.ctxs[h]) && MoreToRun(w.ctxs[h])
    ensures var w1 := Advanced(w, h);
            w1.Knows(h) && Starting(w1.lives[h], w1.ctxs[h], w.ctxs[h].commands[|w.ctxs[h].replies| + 1]) &&
            Only(w, w1, h)
  {}

  lemma OnlyTwice(w: World, w1: World, w2: World, h: Handle)
    requires Only(w, w1, h) && Only(w1, w2, h)
    ensures Only(w, w2, h)
  {}

  lemma SuccessGoesOn(w: World, h: Handle, accepted: bool)
    requires w.Knows(h) && Awaiting(w.lives[h], w.ctxs[h]) && w.inFlight[h] == 0 && MoreToRun(w.ctxs[h])
    ensures var w1 := Replied(w, h, true, accepted); Only(w, w1, h) && Sane(w1, h)
  {
    hide Awaiting, Starting, Handled, Sane, Only;
    var c := w.ctxs[h].commands[|w.ctxs[h].replies| + 1];
    var w1 := Advanced(w, h);
    AdvancedStarts(w, h, accepted);
    assert Replied(w, h, true, accepted) == Handled(w1, c, h, accepted);
    hide Replied;
    StartKeeps(w1, h, c, accepted);
    OnlyTwice(w, w1, Handled(w1, c, h, accepted), h);
  }

  lemma ReplyKeeps(w: World, h: Handle, ok: bool, accepted: bool)
    requires w.Knows(h) && Awaiting(w.lives[h], w.ctxs[h]) && w.inFlight[h] == 0
    ensures var w1 := Replied(w, h, ok, accepted); Only(w, w1, h) && Sane(w1, h)
  {
    hide Replied, Awaiting, Only, Sane;
    if !ok { FailureEnds(w, h, accepted); }
    else if MoreToRun(w.ctxs[h]) { SuccessGoesOn(w, h, accepted); }
    else { SuccessEnds(w, h, accepted); }
  }

  /** No command of a pack reads an object. */
  lemma PacksReadNoObject(l: Life, c: Ctx)
    requires Awaiting(l, c) && l.request.PackOf?
    ensures !ReadsObject(l)
  {
    assert l.started[|l.started| - 1] == l.request.commands[|l.outcomes|];
  }

  lemma EmptyHashKeeps(w: World, h: Handle, accepted: bool)
    requires w.Knows(h) && Awaiting(w.lives[h], w.ctxs[h]) && w.inFlight[h] == 0 && ReadsObject(w.lives[h])
    ensures var w1 := Replied(Replied(w, h, false, accepted), h, true, accepted); Only(w, w1, h) && Sane(w1, h)
  {
    var l := w.lives[h];
    if l.request.PackOf? {
      PacksReadNoObject(l, w.ctxs[h]);
      assert false;
    }
  }

  // ---------- a step of the worker ----------

  lemma SaneElsewhere(w: World, w1: World, h: Handle, k: Handle)
    requires Only(w, w1, h) && k != h && Sane(w, k)
    ensures Sane(w1, k)
  {
    hide Awaiting, Finished;
  }

  /** What a step on one context leaves of the invariant. */
  lemma OnlyKeeps(w: World, w1: World, h: Handle)
    requires Invariant(w) && Only(w, w1, h) && h in w.lives && Sane(w1, h)
    ensures Invariant(w1)
  {
    hide Awaiting, Finished, Sane;
    forall k | k in w1.lives ensures 1 <= k < w1.current && Sane(w1, k) {
      if k != h { SaneElsewhere(w, w1, h, k); }
    }
    assert h in w1.lives by { SaneKnown(w1, h); }
  }

  lemma SaneKnown(w: World, h: Handle)
    requires Sane(w, h)
    ensures h in w.lives
  {}

  lemma ClearedKeeps(w: World)
    requires Invariant(w)
    ensures Invariant(Cleared(w)) && Cleared(w).current == w.current
  {
    hide Awaiting, Finished;
    var w1 := Cleared(w);
    forall h | h in w1.lives ensures 1 <= h < w1.current && Sane(w1, h) {
      assert Sane(w, h);
      if Running(w, h) { assert !w.ctxs[h].done by { AwaitingNotDone(w.lives[h], w.ctxs[h]); } }
    }
  }

  lemma AwaitingNotDone(l: Life, c: Ctx)
    requires Awaiting(l, c)
    ensures !c.done
  {}

  lemma CreatedKeeps(w: World, r: Request, c: Ctx, cm: Command, accepted: bool)
    requires Invariant(w) && w.current + 1 < HANDLES && Starting(Life(r, [], [], []), c, cm)
    ensures w.current !in w.lives
    ensures Invariant(Handled(Created(w, r, c), cm, w.current, accepted))
  {
    var h := w.current;
    var w1 := Created(w, r, c);
    hide Awaiting, Finished, Handled, Sane;
    assert Only(w1, Handled(w1, cm, h, accepted), h) && Sane(Handled(w1, cm, h, accepted), h) by {
      StartKeeps(w1, h, cm, accepted);
    }
    hide Starting;
    var w2 := Handled(w1, cm, h, accepted);
    forall k | k in w2.lives ensures 1 <= k < w2.current && Sane(w2, k) {
      if k != h {
        CreatedElsewhere(w, r, c, k);
        SaneElsewhere(w1, w2, h, k);
      }
    }
    SaneKnown(w2, h);
  }

  lemma CreatedElsewhere(w: World, r: Request, c: Ctx, k: Handle)
    requires Sane(w, k) && k != w.current
    ensures Sane(Created(w, r, c), k)
  {
    hide Awaiting, Finished;
  }

  lemma AnsweredKeeps(w: World, h: Handle, a: Answer, accepted: bool)
    requires Invariant(w) && Enabled(w, Answered(h, a, accepted))
    ensures Invariant(OnCallback(w, h, a, accepted))
  {
    hide Awaiting, Finished, Replied, ReadsObject, OnCallback;
    assert Sane(w, h);
    CallbackKeeps(w, h, a, accepted);
    hide Sane;
    OnlyKeeps(w, OnCallback(w, h, a, accepted), h);
  }

  lemma TakenOff(w: World, h: Handle)
    ensures Only(w, w.(inFlight := w.inFlight - multiset{h}), h)
  {}

  lemma CallbackKeeps(w: World, h: Handle, a: Answer, accepted: bool)
    requires Running(w, h) && (a == EmptyHash ==> ReadsObject(w.lives[h]))
    ensures var w1 := OnCallback(w, h, a, accepted); Only(w, w1, h) && Sane(w1, h)
  {
    hide Awaiting, Finished, Replied, ReadsObject, Only, Sane;
    var w1 := w.(inFlight := w.inFlight - multiset{h});
    if a == EmptyHash { EmptyHashKeeps(w1, h, accepted); } else { ReplyKeeps(w1, h, a == Good, accepted); }
    TakenOff(w, h);
    OnlyTwice(w, w1, OnCallback(w, h, a, accepted), h);
  }

  lemma InvariantKept(w: World, e: Event)
    requires Invariant(w) && Enabled(w, e)
    ensures Invariant(Next(w, e))
  {
    hide Invariant, Handled, Replied, Cleared, Created;
    match e
    case Commanded(r, acc) => CommandedKeeps(w, r, acc);
    case Messaged(_, acc) =>
      ClearedKeeps(w);
      CreatedKeeps(Cleared(w), Write, NoReplyContext(false), OBJECT_WRITE, acc);
    case Polled(_, acc) => CreatedKeeps(w, Read, SimpleMsgContext(false), OBJECT, acc);
    case Answered(h, a, acc) => AnsweredKeeps(w, h, a, acc);
  }

  lemma CommandedKeeps(w: World, r: Request, accepted: bool)
    requires Invariant(w) && Enabled(w, Commanded(r, accepted))
    ensures Invariant(OnCommand(w, r, accepted))
  {
    if Refused(r) {
      hide Awaiting, Finished;
      var w1 := OnCommand(w, r, accepted);
      forall h | h in w1.lives ensures 1 <= h < w1.current && Sane(w1, h) { assert Sane(w, h); }
    } else {
      var (c, cm) := Context(r);
      CreatedKeeps(w, r, c, cm, accepted);
      hide Invariant, Handled, Created, Cleared;
      ClearedKeeps(Handled(Created(w, r, c), cm, w.current, accepted));
    }
  }

  /** The context made for a command and its first command. */
  function Context(r: Request): (Ctx, Command)
    requires !r.Write? && (r.PackOf? ==> r.commands != [])
  {
    match r
    case PackOf(cs) => (PackContext(cs, [], false), cs[0])
    case Single(c) => (SimpleContext(c, false), c)
    case Read => (SimpleMsgContext(false), OBJECT)
  }

  // ---------- over every run ----------

  ghost predicate IsRun(w: World, es: seq<Event>)
    decreases |es|
  {
    es == [] || (Enabled(w, es[0]) && IsRun(Next(w, es[0]), es[1..]))
  }

  ghost function After(w: World, es: seq<Event>): World
    requires IsRun(w, es)
    decreases |es|
  {
    if es == [] then w else After(Next(w, es[0]), es[1..])
  }

  const START := World(map[], 1, multiset{}, map[])

  lemma {:induction false} RunKeeps(w: World, es: seq<Event>)
    requires Invariant(w) && IsRun(w, es)
    ensures Invariant(After(w, es))
    decreases |es|
  {
    hide Invariant, Enabled, Next;
    if es != [] {
      InvariantKept(w, es[0]);
      RunKeeps(Next(w, es[0]), es[1..]);
    }
  }

  lemma Always(es: seq<Event>)
    requires IsRun(START, es)
    ensures Invariant(After(START, es))
  {
    RunKeeps(START, es);
  }

  // ---------- what holds in every run ----------

  /** A command in flight finds its context: present, not done, and with no other command in
      flight. */
  lemma HandlesAreSafe(es: seq<Event>, h: Handle)
    requires IsRun(START, es) && h in After(START, es).inFlight
    ensures var w := After(START, es); h in w.ctxs && !w.ctxs[h].done && w.inFlight[h] == 1
  {
    Always(es);
    var w := After(START, es);
    assert h in w.lives && Sane(w, h);
  }

  /** A context that is not done waits for exactly one command, unless it is that of a failed
      read for a plain message, which waits for none and stays. */
  lemma NotDoneWaits(es: seq<Event>, h: Handle)
    requires IsRun(START, es) && h in After(START, es).ctxs && !After(START, es).ctxs[h].done
    ensures var w := After(START, es);
            h in w.lives && w.inFlight[h] <= 1 &&
            (w.inFlight[h] == 0 <==> w.lives[h].request.Read? && w.lives[h].outcomes == [false])
  {
    Always(es);
    var w := After(START, es);
    assert h in w.lives && Sane(w, h);
  }

  /** A context is made under a handle that no context had before. */
  lemma HandlesAreNew(es: seq<Event>)
    requires IsRun(START, es)
    ensures var w := After(START, es); w.current !in w.lives && w.current !in w.ctxs && w.current !in w.inFlight
  {
    Always(es);
  }

  /** A pack that has no command in flight has sent one reply pack with one reply for each of
      its commands; the commands were started in order up to the first failure, and the reply is
      ok exactly when all of them succeeded. One with a command in flight has sent nothing. */
  lemma PackRepliesOnce(es: seq<Event>, h: Handle)
    requires IsRun(START, es) && h in After(START, es).lives && After(START, es).lives[h].request.PackOf?
    ensures var w := After(START, es); var l := w.lives[h]; var cs := l.request.commands;
            && l.started <= cs
            && (if h in w.inFlight then l.sent == [] && |l.started| == |l.outcomes| + 1 && AllOk(l.outcomes)
                else
                  && |l.sent| == 1 && l.sent[0].ReplyPackMsg?
                  && |l.sent[0].oks| == |cs| && l.outcomes <= l.sent[0].oks && |l.started| == |l.outcomes|
                  && (forall i :: |l.outcomes| <= i < |cs| ==> !l.sent[0].oks[i])
                  && (forall i :: 0 <= i < |l.outcomes| - 1 ==> l.outcomes[i])
                  && (l.sent[0].ok <==> l.started == cs && AllOk(l.outcomes)))
  {
    Always(es);
    var w := After(START, es);
    var l := w.lives[h];
    assert Sane(w, h);
    if h !in w.inFlight {
      assert Finished(l);
      FilledOk(l.outcomes, |l.request.commands|);
    }
  }

  lemma FilledOk(outcomes: seq<bool>, n: nat)
    requires UpToFailure(outcomes, n)
    ensures AllOk(Filled(outcomes, n)) <==> |outcomes| == n && AllOk(outcomes)
  {
    if |outcomes| < n { assert !Filled(outcomes, n)[|outcomes|]; }
  }

  /** A single command that is not in flight has been replied to once, with its outcome, unless it
      was a read of an object that met an empty hash: that one is refused and then answered. */
  lemma SingleReplies(es: seq<Event>, h: Handle)
    requires IsRun(START, es) && h in After(START, es).lives && After(START, es).lives[h].request.Single?
    ensures var w := After(START, es); var l := w.lives[h];
            if h in w.inFlight then l.sent == []
            else if |l.outcomes| == 1 then l.sent == [ReplyMsg(l.outcomes[0])]
            else l.request.command.ReadObject? && l.sent == [ReplyMsg(false), ReplyMsg(true)]
  {
    Always(es);
    var w := After(START, es);
    assert Sane(w, h);
  }

  /** The answer to a single command makes one reply exactly when it is no empty hash, which makes
      two. */
  lemma RepliesOnceExactly(es: seq<Event>, h: Handle, a: Answer, accepted: bool)
    requires IsRun(START, es) && Enabled(After(START, es), Answered(h, a, accepted))
    requires After(START, es).lives[h].request.Single?
    ensures var w := Next(After(START, es), Answered(h, a, accepted)); h in w.lives && var l := w.lives[h];
            (|l.sent| == 1 <==> a != EmptyHash) && (|l.sent| == 2 <==> a == EmptyHash)
  {
    Always(es);
    assert Sane(After(START, es), h);
  }

  /** A read for a plain message that is not in flight has sent the object on once if it succeeded in
      the end, and nothing if it failed; a write never sends anything. */
  lemma PlainReplies(es: seq<Event>, h: Handle)
    requires IsRun(START, es) && h in After(START, es).lives
    ensures var w := After(START, es); var l := w.lives[h];
            && (l.request.Read? ==>
                  l.sent == if h in w.inFlight || true !in l.outcomes then [] else [PlainMsg])
            && (l.request.Write? ==> l.sent == [])
  {
    Always(es);
    assert Sane(After(START, es), h);
  }

  // ---------- what each event does ----------

  /** A context for request r is made under the next handle and starts command first; every other
      life, every other command in flight and, but for done ones, every other context is as before. */
  ghost predicate Begun(w: World, w1: World, r: Request, first: Command, accepted: bool) {
    var h := w.current;
    && h !in w.lives && h in w1.lives && w1.current == h + 1
    && w1.lives == w.lives[h := w1.lives[h]]
    && w1.lives[h].request == r && w1.lives[h].started == [first]
    && (if accepted && !first.Unsupported? then
          w1.lives[h].outcomes == [] && w1.lives[h].sent == [] && w1.inFlight == w.inFlight + multiset{h}
        else w1.lives[h].outcomes == [false] && w1.inFlight == w.inFlight)
    && (forall k :: k in w1.ctxs && k != h ==> k in w.ctxs && w1.ctxs[k] == w.ctxs[k])
    && (forall k :: k in w.ctxs && !w.ctxs[k].done ==> k in w1.ctxs)
  }

  lemma BeginsWith(w: World, r: Request, c: Ctx, first: Command, accepted: bool)
    requires Invariant(w) && w.current + 1 < HANDLES && Starting(Life(r, [], [], []), c, first)
    ensures Begun(w, Handled(Created(w, r, c), first, w.current, accepted), r, first, accepted)
  {
    hide Awaiting, Finished, Sane, Handled, Replied;
    var h := w.current;
    assert h !in w.lives && h !in w.inFlight;
    hide Invariant, Starting;
    var w1 := Started(Created(w, r, c), h, first);
    HandledIs(Created(w, r, c), first, h, accepted);
    if first.Unsupported? || !accepted { FirstFails(w1, h, accepted); }
  }

  lemma FirstFails(w: World, h: Handle, accepted: bool)
    requires w.Knows(h)
    ensures var w1 := Replied(w, h, false, accepted);
            && w1.Knows(h) && w1.current == w.current && w1.inFlight == w.inFlight
            && w1.lives == w.lives[h := w1.lives[h]] && w1.ctxs == w.ctxs[h := w1.ctxs[h]]
            && w1.lives[h].request == w.lives[h].request && w1.lives[h].started == w.lives[h].started
            && w1.lives[h].outcomes == w.lives[h].outcomes + [false]
  {}

  lemma BegunCleared(w: World, w1: World, r: Request, first: Command, accepted: bool)
    requires Begun(w, w1, r, first, accepted) && w.current !in w.ctxs
    ensures Begun(w, Cleared(w1), r, first, accepted)
  {}

  /** The first command of a request. */
  function FirstOf(r: Request): Command
    requires r.PackOf? ==> r.commands != []
  {
    match r
    case PackOf(cs) => cs[0]
    case Single(c) => c
    case Read => ReadObject(0)
    case Write => Supported(0)
  }

  /** In every run a command makes a context and starts its first command, unless it is a pack that
      reads an object, which uses up a handle and nothing else. No done context is left. */
  lemma CommandBegins(es: seq<Event>, r: Request, accepted: bool)
    requires IsRun(START, es) && Enabled(After(START, es), Commanded(r, accepted))
    ensures var w := After(START, es); var w1 := Next(w, Commanded(r, accepted));
            if r.PackOf? && exists i :: 0 <= i < |r.commands| && r.commands[i].ReadObject? then
              w1 == w.(current := w.current + 1)
            else
              Begun(w, w1, r, FirstOf(r), accepted) && forall h :: h in w1.ctxs ==> !w1.ctxs[h].done
  {
    Always(es);
    var w := After(START, es);
    if !Refused(r) {
      var (c, first) := Context(r);
      hide Invariant, Handled, Created, Starting;
      assert Starting(Life(r, [], [], []), c, first) by { ContextStarts(r); }
      BeginsWith(w, r, c, first, accepted);
      assert w.current !in w.ctxs by { HandlesAreNew(es); }
      BegunCleared(w, Handled(Created(w, r, c), first, w.current, accepted), r, first, accepted);
    }
  }

  lemma ContextStarts(r: Request)
    requires !r.Write? && (r.PackOf? ==> r.commands != []) && !Refused(r)
    ensures Starting(Life(r, [], [], []), Context(r).0, Context(r).1) && Context(r).1 == FirstOf(r)
  {}

  /** A message makes a context when an object key is configured, and otherwise none. No context done
      before is left. */
  lemma MessageBegins(es: seq<Event>, keyed: bool, accepted: bool)
    requires IsRun(START, es) && After(START, es).current + 1 < HANDLES
    ensures var w := After(START, es); var w1 := Next(w, Messaged(keyed, accepted));
            if keyed then Begun(w, w1, Write, FirstOf(Write), accepted)
            else w1.lives == w.lives && w1.inFlight == w.inFlight && w1.current == w.current
    ensures var w := After(START, es); var w1 := Next(w, Messaged(keyed, accepted));
            forall h :: h in w1.ctxs && h != w.current ==> !w1.ctxs[h].done
  {
    Always(es);
    var w := After(START, es);
    ClearedKeeps(w);
    hide Invariant, Handled, Created, Begun, Starting;
    assert Starting(Life(Write, [], [], []), NoReplyContext(false), FirstOf(Write)) by { WriteStarts(); }
    BeginsWith(Cleared(w), Write, NoReplyContext(false), FirstOf(Write), accepted);
    BegunAfterClearing(w, OnMsg(w, true, accepted), Write, FirstOf(Write), accepted);
  }

  lemma WriteStarts()
    ensures Starting(Life(Write, [], [], []), NoReplyContext(false), FirstOf(Write))
    ensures Starting(Life(Read, [], [], []), SimpleMsgContext(false), FirstOf(Read))
  {}

  lemma BegunAfterClearing(w: World, w1: World, r: Request, first: Command, accepted: bool)
    requires Begun(Cleared(w), w1, r, first, accepted)
    ensures Begun(w, w1, r, first, accepted)
    ensures forall h :: h in w1.ctxs && h != w.current ==> !w1.ctxs[h].done
  {
    assert forall k :: k in Cleared(w).ctxs <==> k in w.ctxs && !w.ctxs[k].done;
  }

  /** A poll makes a context when redis is connected, and otherwise nothing. */
  lemma PollBegins(es: seq<Event>, connected: bool, accepted: bool)
    requires IsRun(START, es) && After(START, es).current + 1 < HANDLES
    ensures var w := After(START, es); var w1 := Next(w, Polled(connected, accepted));
            if connected then Begun(w, w1, Read, FirstOf(Read), accepted) else w1 == w
  {
    Always(es);
    var w := After(START, es);
    hide Invariant, Handled, Created, Begun, Starting;
    assert Starting(Life(Read, [], [], []), SimpleMsgContext(false), FirstOf(Read)) by { WriteStarts(); }
    BeginsWith(w, Read, SimpleMsgContext(false), FirstOf(Read), accepted);
  }

  /** The outcomes an answer adds. */
  function Told(a: Answer): seq<bool> {
    match a
    case Good => [true]
    case Bad => [false]
    case EmptyHash => [false, true]
  }

  /** Which command comes next, as the life and as the context have it. */
  lemma WaitsFor(l: Life, c: Ctx)
    requires Awaiting(l, c)
    ensures MoreToRun(c) <==> l.request.PackOf? && |l.started| < |l.request.commands|
    ensures MoreToRun(c) ==> c.commands[|c.replies| + 1] == l.request.commands[|l.started|]
    ensures c.PackContext? <==> l.request.PackOf?
  {}

  lemma GoodEnds(w: World, h: Handle, accepted: bool)
    requires w.Knows(h) && !MoreToRun(w.ctxs[h])
    ensures var w1 := Replied(w, h, true, accepted);
            && h in w1.lives && w1.lives == w.lives[h := w1.lives[h]] && w1.current == w.current
            && w1.inFlight == w.inFlight && w1.lives[h].request == w.lives[h].request
            && w1.lives[h].started == w.lives[h].started && w1.lives[h].outcomes == w.lives[h].outcomes + [true]
            && w1.Knows(h)
  {}

  lemma GoodGoesOn(w: World, h: Handle, accepted: bool)
    requires w.Knows(h) && MoreToRun(w.ctxs[h])
    ensures var w1 := Replied(w, h, true, accepted); var c := w.ctxs[h].commands[|w.ctxs[h].replies| + 1];
            && h in w1.lives && w1.lives == w.lives[h := w1.lives[h]] && w1.current == w.current
            && w1.lives[h].request == w.lives[h].request && w1.lives[h].started == w.lives[h].started + [c]
            && (if accepted && !c.Unsupported? then
                  w1.lives[h].outcomes == w.lives[h].outcomes + [true] && w1.inFlight == w.inFlight + multiset{h}
                else w1.lives[h].outcomes == w.lives[h].outcomes + [true, false] && w1.inFlight == w.inFlight)
  {
    hide Replied, Handled;
    var c := w.ctxs[h].commands[|w.ctxs[h].replies| + 1];
    var w1 := Advanced(w, h);
    var w2 := Started(w1, h, c);
    assert Replied(w, h, true, accepted) == Handled(w1, c, h, accepted) by { GoesOnIs(w, h, accepted); }
    HandledIs(w1, c, h, accepted);
    if c.Unsupported? || !accepted {
      FirstFails(w2, h, accepted);
      assert w.lives[h].outcomes + [true] + [false] == w.lives[h].outcomes + [true, false];
    }
  }

  lemma GoesOnIs(w: World, h: Handle, accepted: bool)
    requires w.Knows(h) && MoreToRun(w.ctxs[h])
    ensures Replied(w, h, true, accepted) ==
            Handled(Advanced(w, h), w.ctxs[h].commands[|w.ctxs[h].replies| + 1], h, accepted)
  {}

  lemma HandledIs(w: World, c: Command, h: Handle, accepted: bool)
    requires w.Knows(h)
    ensures var w1 := Started(w, h, c);
            w1.Knows(h) && Handled(w, c, h, accepted) ==
            if c.Unsupported? || !accepted then Replied(w1, h, false, accepted)
            else w1.(inFlight := w1.inFlight + multiset{h})
  {}

  lemma EmptyEnds(w: World, h: Handle, accepted: bool)
    requires w.Knows(h) && !w.ctxs[h].PackContext?
    ensures var w1 := Replied(w, h, false, accepted);
            w1.Knows(h) && !MoreToRun(w1.ctxs[h])
  {}

  /** Answer a to the command in flight for h is recorded as its outcome. If it is good and the pack has a
      command left, that one is started, and fails at once if it is not supported or redis does not take
      it; otherwise nothing more is in flight for the context. */
  ghost predicate Added(w: World, w1: World, h: Handle, a: Answer, accepted: bool) {
    && h in w.lives && h in w1.lives && w1.lives == w.lives[h := w1.lives[h]] && w1.current == w.current
    && var (l, l1) := (w.lives[h], w1.lives[h]);
       l1.request == l.request &&
       if a == Good && l.request.PackOf? && |l.started| < |l.request.commands| then
         var c := l.request.commands[|l.started|];
         && l1.started == l.started + [c]
         && (if accepted && !c.Unsupported? then l1.outcomes == l.outcomes + [true] && w1.inFlight == w.inFlight
             else l1.outcomes == l.outcomes + [true, false] && w1.inFlight == w.inFlight - multiset{h})
       else
         l1.started == l.started && l1.outcomes == l.outcomes + Told(a) && w1.inFlight == w.inFlight - multiset{h}
  }

  /** What an answer does in every run. */
  lemma AnswerGoesOn(es: seq<Event>, h: Handle, a: Answer, accepted: bool)
    requires IsRun(START, es) && Enabled(After(START, es), Answered(h, a, accepted))
    ensures Added(After(START, es), Next(After(START, es), Answered(h, a, accepted)), h, a, accepted)
  {
    Always(es);
    var w := After(START, es);
    assert Running(w, h) by { InFlightRuns(w, h); }
    hide Invariant, Enabled, IsRun, After, Sane;
    AnswerAdds(w, h, a, accepted);
  }

  lemma InFlightRuns(w: World, h: Handle)
    requires Invariant(w) && h in w.inFlight
    ensures Running(w, h)
  {
    hide Awaiting, Finished;
    assert Sane(w, h);
  }

  lemma AnswerAdds(w: World, h: Handle, a: Answer, accepted: bool)
    requires Running(w, h) && (a == EmptyHash ==> ReadsObject(w.lives[h]))
    ensures var w1 := OnCallback(w, h, a, accepted); Added(w, w1, h, a, accepted)
  {
    var w0 := w.(inFlight := w.inFlight - multiset{h});
    WaitsFor(w.lives[h], w.ctxs[h]);
    hide Finished, Replied, Handled, ReadsObject;
    assert w.inFlight - multiset{h} + multiset{h} == w.inFlight;
    match a
    case Good =>
      hide Awaiting;
      if MoreToRun(w.ctxs[h]) { GoodGoesOn(w0, h, accepted); } else { GoodEnds(w0, h, accepted); }
    case Bad =>
      hide Awaiting;
      FirstFails(w0, h, accepted);
    case EmptyHash =>
      assert !w.lives[h].request.PackOf? by {
        if w.lives[h].request.PackOf? { PacksReadNoObject(w.lives[h], w.ctxs[h]); }
      }
      hide Awaiting;
      EmptyEnds(w0, h, accepted);
      FirstFails(w0, h, accepted);
      GoodEnds(Replied(w0, h, false, accepted), h, accepted);
      assert w.lives[h].outcomes + [false] + [true] == w.lives[h].outcomes + [false, true];
  }

  // ---------- the read that is forgotten ----------

  lemma StuckElsewhere(w: World, w1: World, h: Handle, k: Handle)
    requires Only(w, w1, k) && k != h && Stuck(w, h)
    ensures Stuck(w1, h)
  {}

  lemma StuckPastCreation(w: World, r: Request, c: Ctx, cm: Command, accepted: bool, h: Handle)
    requires Stuck(w, h) && h != w.current && Starting(Life(r, [], [], []), c, cm) && w.inFlight[w.current] == 0
    ensures Stuck(Handled(Created(w, r, c), cm, w.current, accepted), h)
  {
    var w1 := Created(w, r, c);
    hide Awaiting, Finished, Handled, Sane, Stuck;
    assert Stuck(w1, h) by { StuckInCreated(w, r, c, h); }
    assert Only(w1, Handled(w1, cm, w.current, accepted), w.current) by { StartKeeps(w1, w.current, cm, accepted); }
    hide Starting;
    StuckElsewhere(w1, Handled(w1, cm, w.current, accepted), h, w.current);
  }

  lemma StuckInCreated(w: World, r: Request, c: Ctx, h: Handle)
    requires Stuck(w, h) && h != w.current
    ensures Stuck(Created(w, r, c), h)
  {}

  lemma StuckInCleared(w: World, h: Handle)
    requires Stuck(w, h)
    ensures Stuck(Cleared(w), h)
  {}

  lemma StuckPastCommand(w: World, r: Request, accepted: bool, h: Handle)
    requires Stuck(w, h) && h != w.current && w.inFlight[w.current] == 0 && Enabled(w, Commanded(r, accepted))
    ensures Stuck(OnCommand(w, r, accepted), h)
  {
    hide Handled, Cleared, Stuck;
    if Refused(r) {
      StuckInRefused(w, h);
    } else {
      var (c, cm) := Context(r);
      StuckPastCreation(w, r, c, cm, accepted, h);
      StuckInCleared(Handled(Created(w, r, c), cm, w.current, accepted), h);
    }
  }

  lemma StuckInRefused(w: World, h: Handle)
    requires Stuck(w, h)
    ensures Stuck(w.(current := (w.current + 1) % HANDLES), h)
  {}

  lemma StuckPastAnswer(w: World, k: Handle, a: Answer, accepted: bool, h: Handle)
    requires Invariant(w) && Enabled(w, Answered(k, a, accepted)) && Stuck(w, h)
    ensures Stuck(OnCallback(w, k, a, accepted), h)
  {
    hide OnCallback, Awaiting, Finished;
    assert Sane(w, k) && k != h;
    CallbackKeeps(w, k, a, accepted);
    StuckElsewhere(w, OnCallback(w, k, a, accepted), h, k);
  }

  lemma StuckStays(w: World, e: Event, h: Handle)
    requires Invariant(w) && Enabled(w, e) && Stuck(w, h)
    ensures Stuck(Next(w, e), h)
  {
    assert h < w.current && w.inFlight[w.current] == 0 by { StuckBelow(w, h); }
    hide Handled, Created, Cleared, OnCallback, OnCommand, Stuck, Invariant;
    match e
    case Commanded(r, acc) => StuckPastCommand(w, r, acc, h);
    case Messaged(_, acc) =>
      StuckInCleared(w, h);
      assert Cleared(w).current == w.current && Cleared(w).inFlight == w.inFlight by { ClearedFacts(w); }
      StuckPastCreation(Cleared(w), Write, NoReplyContext(false), OBJECT_WRITE, acc, h);
    case Polled(_, acc) => StuckPastCreation(w, Read, SimpleMsgContext(false), OBJECT, acc, h);
    case Answered(k, a, acc) => StuckPastAnswer(w, k, a, acc, h);
  }

  lemma StuckBelow(w: World, h: Handle)
    requires Invariant(w) && Stuck(w, h)
    ensures h < w.current && w.inFlight[w.current] == 0
  {
    assert w.current !in w.inFlight;
  }

  lemma ClearedFacts(w: World)
    ensures Cleared(w).current == w.current && Cleared(w).inFlight == w.inFlight
  {}

  /** The context of a failed read for a plain message stays in the manager for ever. */
  lemma {:induction false} StuckForever(w: World, es: seq<Event>, h: Handle)
    requires Invariant(w) && IsRun(w, es) && Stuck(w, h)
    ensures Stuck(After(w, es), h)
    decreases |es|
  {
    hide Invariant, Enabled, Next, Stuck;
    if es != [] {
      InvariantKept(w, es[0]);
      StuckStays(w, es[0], h);
      StuckForever(Next(w, es[0]), es[1..], h);
    }
  }

  lemma RefusedPollSticks(w: World)
    requires w.inFlight[w.current] == 0
    ensures Stuck(OnPoll(w, true, false), w.current)
  {
    var w1 := Started(Created(w, Read, SimpleMsgContext(false)), w.current, OBJECT);
    assert w1.lives[w.current] == Life(Read, [OBJECT], [], []);
    assert Replied(w1, w.current, false, false) == Recorded(w1, w.current, false);
    assert Handled(Created(w, Read, SimpleMsgContext(false)), OBJECT, w.current, false) ==
           Replied(w1, w.current, false, false);
  }

  /** Such a read exists: a poll that redis does not take. */
  lemma PollCanStick(es: seq<Event>)
    requires IsRun(START, es) && Enabled(After(START, es), Polled(true, false))
    ensures var w := After(START, es); Stuck(Next(w, Polled(true, false)), w.current)
  {
    HandlesAreNew(es);
    hide *;
    NextPolled(After(START, es));
    RefusedPollSticks(After(START, es));
  }

  lemma NextPolled(w: World)
    requires Enabled(w, Polled(true, false))
    ensures Next(w, Polled(true, false)) == OnPoll(w, true, false)
  {}
}
