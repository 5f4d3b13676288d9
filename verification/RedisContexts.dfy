/** The command contexts of the redis cache consumer and producer: packs run one command at a
    time through asynchronous callbacks that find their context by handle. */
module RedisContexts {
  import opened Keys

  type Handle = nat

  const HANDLES: nat := 0x1_0000_0000_0000_0000

  /** A command names what it does; one the worker does not support fails at once. */
  datatype Command = ReadObject(id: nat) | Supported(id: nat) | Unsupported(id: nat)

  /** What a message asks of the worker: onCommand's three branches, a plain message to write,
      and a poll for the object. */
  datatype Request =
    | PackOf(commands: seq<Command>)
    | Single(command: Command)
    | Read
    | Write

  /** CacheContext's subclasses; replies holds the ok flags of a reply pack. */
  datatype Ctx =
    | PackContext(commands: seq<Command>, replies: seq<bool>, done: bool)
    | SimpleContext(command: Command, done: bool)
    | SimpleMsgContext(done: bool)
    | NoReplyContext(done: bool)

  /** A message sent on: the reply to a command, the reply pack to a pack, or plain JSON. */
  datatype Sent = ReplyMsg(ok: bool) | ReplyPackMsg(oks: seq<bool>, ok: bool) | PlainMsg

  /** The record of one context: what it was made for, the commands given to handleCommand for
      it, the replies it was given, and the messages it sent. */
  datatype Life = Life(request: Request, started: seq<Command>, outcomes: seq<bool>, sent: seq<Sent>)

  datatype World = World(ctxs: map<Handle, Ctx>, current: nat, inFlight: multiset<Handle>, lives: map<Handle, Life>)
  {
    predicate Knows(h: Handle) { h in ctxs && h in lives }
  }

  // ---------- contexts ----------

  predicate AllOk(oks: seq<bool>) { forall i :: 0 <= i < |oks| ==> oks[i] }

  function Fails(n: nat): (r: seq<bool>)
    ensures |r| == n && forall i :: 0 <= i < n ==> !r[i]
  {
    seq(n, i => false)
  }

  /** A reply pack brought to length n with failures. */
  function Filled(oks: seq<bool>, n: nat): (r: seq<bool>) { if |oks| < n then oks + Fails(n - |oks|) else oks }

  function Started(w: World, h: Handle, c: Command): World
    requires h in w.lives
  {
    w.(lives := w.lives[h := w.lives[h].(started := w.lives[h].started + [c])])
  }

  function Sends(w: World, h: Handle, s: Sent): World
    requires h in w.lives
  {
    w.(lives := w.lives[h := w.lives[h].(sent := w.lives[h].sent + [s])])
  }

  function SetCtx(w: World, h: Handle, c: Ctx): World { w.(ctxs := w.ctxs[h := c]) }

  function Recorded(w: World, h: Handle, ok: bool): World
    requires h in w.lives
  {
    w.(lives := w.lives[h := w.lives[h].(outcomes := w.lives[h].outcomes + [ok])])
  }

  /** CacheContext::reply and fail. accepted tells whether redis takes the next command, should
      the context start one. */
  function Replied(w: World, h: Handle, ok: bool, accepted: bool): World
    requires w.Knows(h)
    decreases if ok then 2 else 0
  {
    var w1 := Recorded(w, h, ok);
    match w.ctxs[h]
    case SimpleContext(c, _) => SetCtx(Sends(w1, h, ReplyMsg(ok)), h, SimpleContext(c, true))
    case SimpleMsgContext(_) => if ok then SetCtx(Sends(w1, h, PlainMsg), h, SimpleMsgContext(true)) else w1
    case NoReplyContext(_) => SetCtx(w1, h, NoReplyContext(true))
    case PackContext(cs, oks, d) =>
      if |oks| + 1 >= |cs| || !ok then
        var all := Filled(oks + [ok], |cs|);
        SetCtx(Sends(w1, h, ReplyPackMsg(all, AllOk(all))), h, PackContext(cs, all, true))
      else
        Handled(SetCtx(w1, h, PackContext(cs, oks + [ok], d)), cs[|oks| + 1], h, accepted)
  }

  /** handleCommand: an unsupported command, or one redis does not take, fails at once. */
  function Handled(w: World, c: Command, h: Handle, accepted: bool): World
    requires w.Knows(h)
    decreases 1
  {
    var w1 := Started(w, h, c);
    if c.Unsupported? || !accepted then Replied(w1, h, false, accepted)
    else w1.(inFlight := w1.inFlight + multiset{h})
  }

  // ---------- the manager ----------

  function Cleared(w: World): World {
    w.(ctxs := map h | h in w.ctxs && !w.ctxs[h].done :: w.ctxs[h])
  }

  /** create, when the context's constructor does not throw. */
  function Created(w: World, r: Request, c: Ctx): World {
    w.(ctxs := w.ctxs[w.current := c], lives := w.lives[w.current := Life(r, [], [], [])],
        current := (w.current + 1) % HANDLES)
  }

  /** PackContext refuses packs that read objects. */
  predicate Refused(r: Request) { r.PackOf? && exists i :: 0 <= i < |r.commands| && r.commands[i].ReadObject? }

  /** onCommand, of the consumer and of the producer; only the consumer is asked to read for a plain
      message, and what a worker does not support is an unsupported command. */
  function OnCommand(w: World, r: Request, accepted: bool): World
    requires r.PackOf? ==> r.commands != []
    requires !r.Write?
  {
    if Refused(r) then w.(current := (w.current + 1) % HANDLES)
    else
      var h := w.current;
      var w1 :=
        match r
        case PackOf(cs) => Handled(Created(w, r, PackContext(cs, [], false)), cs[0], h, accepted)
        case Single(c) => Handled(Created(w, r, SimpleContext(c, false)), c, h, accepted)
        case Read => Handled(Created(w, r, SimpleMsgContext(false)), OBJECT, h, accepted)
        case Write => w;
      Cleared(w1)
  }

  const OBJECT := ReadObject(0)
  const OBJECT_WRITE := Supported(0)

  /** The producer's onMsg; without an object key configured the message is dropped. */
  function OnMsg(w: World, keyed: bool, accepted: bool): World {
    var w1 := Cleared(w);
    if !keyed then w1 else Handled(Created(w1, Write, NoReplyContext(false)), OBJECT_WRITE, w1.current, accepted)
  }

  /** The consumer's requestObjectSimple. */
  function OnPoll(w: World, connected: bool, accepted: bool): World {
    if !connected then w else Handled(Created(w, Read, SimpleMsgContext(false)), OBJECT, w.current, accepted)
  }

  /** How redis answered: for the object callback an empty hash is a failure followed by a reply. */
  datatype Answer = Good | Bad | EmptyHash

  function OnCallback(w: World, h: Handle, a: Answer, accepted: bool): World
    requires w.Knows(h)
  {
    var w1 := w.(inFlight := w.inFlight - multiset{h});
    match a
    case Good => Replied(w1, h, true, accepted)
    case Bad => Replied(w1, h, false, accepted)
    case EmptyHash => Replied(Replied(w1, h, false, accepted), h, true, accepted)
  }

  // ---------- the worker as a class ----------

  class CacheWorker {
    var ctxs: map<Handle, Ctx>
    var current: nat
    var inFlight: multiset<Handle>
    var lives: map<Handle, Life>

    ghost function State(): World
      reads this
    {
      World(ctxs, current, inFlight, lives)
    }

    constructor ()
      ensures State() == World(map[], 1, multiset{}, map[])
    {
      ctxs, current, inFlight, lives := map[], 1, multiset{}, map[];
    }

    method Create(r: Request, c: Ctx) returns (h: Handle)
      modifies this
      ensures h == old(current) && State() == Created(old(State()), r, c)
    {
      h := current;
      current := (current + 1) % HANDLES;
      ctxs := ctxs[h := c];
      lives := lives[h := Life(r, [], [], [])];
    }

    /** clearBasedOn(isDone): erases while iterating. */
    method ClearDone()
      modifies this
      ensures State() == Cleared(old(State()))
    {
      ghost var all := ctxs;
      var todo := ctxs.Keys;
      while todo != {}
        invariant todo <= all.Keys
        invariant ctxs == map h | h in all && (h in todo || !all[h].done) :: all[h]
        invariant current == old(current) && inFlight == old(inFlight) && lives == old(lives)
        decreases todo
      {
        var h :| h in todo;
        if ctxs[h].done { ctxs := ctxs - {h}; }
        todo := todo - {h};
      }
    }

    method Send(h: Handle, s: Sent)
      requires h in lives
      modifies this
      ensures State() == Sends(old(State()), h, s)
    {
      lives := lives[h := lives[h].(sent := lives[h].sent + [s])];
    }

    method Reply(h: Handle, ok: bool, accepted: bool)
      requires State().Knows(h)
      modifies this
      ensures State() == Replied(old(State()), h, ok, accepted)
      decreases if ok then 2 else 0
    {
      lives := lives[h := lives[h].(outcomes := lives[h].outcomes + [ok])];
      match ctxs[h] {
        case SimpleContext(c, _) =>
          Send(h, ReplyMsg(ok));
          ctxs := ctxs[h := SimpleContext(c, true)];
        case SimpleMsgContext(_) =>
          if !ok { return; }
          Send(h, PlainMsg);
          ctxs := ctxs[h := SimpleMsgContext(true)];
        case NoReplyContext(_) =>
          ctxs := ctxs[h := NoReplyContext(true)];
        case PackContext(cs, oks, d) =>
          var replyPack := oks + [ok];
          if |replyPack| >= |cs| || !ok {
            while |replyPack| < |cs|
              invariant |replyPack| <= |cs| || replyPack == oks + [ok]
              invariant Filled(replyPack, |cs|) == Filled(oks + [ok], |cs|)
              invariant State() == Recorded(old(State()), h, ok)
            {
              FillOne(replyPack, |cs|);
              replyPack := replyPack + [false];
            }
            Send(h, ReplyPackMsg(replyPack, AllOk(replyPack)));
            ctxs := ctxs[h := PackContext(cs, replyPack, true)];
          } else {
            ctxs := ctxs[h := PackContext(cs, replyPack, d)];
            HandleCommand(cs[|replyPack|], h, accepted);
          }
      }
    }

    method HandleCommand(c: Command, h: Handle, accepted: bool)
      requires State().Knows(h)
      modifies this
      ensures State() == Handled(old(State()), c, h, accepted)
      decreases 1
    {
      lives := lives[h := lives[h].(started := lives[h].started + [c])];
      if c.Unsupported? || !accepted {
        Reply(h, false, accepted);
      } else {
        inFlight := inFlight + multiset{h};
      }
    }

    /** False for the exception PackContext's constructor throws. */
    method Command(r: Request, accepted: bool) returns (ok: bool)
      requires !r.Write? && (r.PackOf? ==> r.commands != [])
      modifies this
      ensures ok <==> !Refused(r)
      ensures State() == OnCommand(old(State()), r, accepted)
    {
      match r {
        case PackOf(cs) =>
          for i := 0 to |cs|
            invariant forall j :: 0 <= j < i ==> !cs[j].ReadObject?
            invariant State() == old(State())
          {
            if cs[i].ReadObject? {
              current := (current + 1) % HANDLES;
              return false;
            }
          }
          var h := Create(r, PackContext(cs, [], false));
          HandleCommand(cs[0], h, accepted);
        case Single(c) =>
          var h := Create(r, SimpleContext(c, false));
          HandleCommand(c, h, accepted);
        case Read =>
          var h := Create(r, SimpleMsgContext(false));
          HandleCommand(OBJECT, h, accepted);
      }
      ClearDone();
      ok := true;
    }

    method Message(keyed: bool, accepted: bool)
      modifies this
      ensures State() == OnMsg(old(State()), keyed, accepted)
    {
      ClearDone();
      if !keyed { return; }
      var h := Create(Write, NoReplyContext(false));
      HandleCommand(OBJECT_WRITE, h, accepted);
    }

    method RequestObjectSimple(connected: bool, accepted: bool)
      modifies this
      ensures State() == OnPoll(old(State()), connected, accepted)
    {
      if !connected { return; }
      var h := Create(Read, SimpleMsgContext(false));
      HandleCommand(OBJECT, h, accepted);
    }

    /** False for the exception getCtx throws on an unknown handle. */
    method Callback(h: Handle, a: Answer, accepted: bool) returns (found: bool)
      requires h in lives
      modifies this
      ensures found <==> h in old(ctxs)
      ensures found ==> State() == OnCallback(old(State()), h, a, accepted)
    {
      inFlight := inFlight - multiset{h};
      if h !in ctxs { return false; }
      if a == EmptyHash {
        Reply(h, false, accepted);
        StillKnown(old(State()).(inFlight := inFlight), h, accepted);
      }
      Reply(h, a != Bad, accepted);
      found := true;
    }
  }

  lemma FillOne(oks: seq<bool>, n: nat)
    requires |oks| < n
    ensures Filled(oks + [false], n) == Filled(oks, n)
  {}

  lemma StillKnown(w: World, h: Handle, accepted: bool)
    requires w.Knows(h)
    ensures Replied(w, h, false, accepted).Knows(h)
  {}
}
