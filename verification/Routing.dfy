/** The broker: workers connected through pipes, and messages that reach them both through the
    pipes of the emitting worker and through the broker's broadcast. */
module Routing {
  import opened Keys

  // ---------- one message, on values ----------

  /** The handlings of a message that emitter e sends down its pipes; each connection is one pipe,
      whose interceptors forward. */
  function Piped<W(==)>(conns: seq<(W, W)>, e: W, receivers: set<W>): multiset<W> {
    if conns == [] then multiset{}
    else
      Piped(conns[1..], e, receivers) +
      if conns[0].0 == e && conns[0].1 in receivers then multiset{conns[0].1} else multiset{}
  }

  /** The handlings of the broker's broadcast of a message to its receivers, less the consumers of
      its sender. */
  function Broadcast<W(==)>(registered: set<W>, receivers: set<W>, consumers: set<W>): multiset<W> {
    multiset(registered * (receivers - consumers))
  }

  lemma {:induction false} PipedCount<W>(conns: seq<(W, W)>, e: W, receivers: set<W>, w: W)
    ensures Piped(conns, e, receivers)[w] == if w in receivers then multiset(conns)[(e, w)] else 0
    decreases |conns|
  {
    if conns != [] {
      PipedCount(conns[1..], e, receivers, w);
      assert conns == [conns[0]] + conns[1..];
      assert multiset(conns)[(e, w)] == multiset([conns[0]])[(e, w)] + multiset(conns[1..])[(e, w)];
    }
  }

  /** Among the workers of all, the connections of e lead once to each consumer and nowhere else. */
  ghost predicate LeadsTo<W>(all: set<W>, conns: seq<(W, W)>, e: W, consumers: set<W>) {
    forall w :: w in all ==> multiset(conns)[(e, w)] == if w in consumers then 1 else 0
  }

  /** How often w handles a message emitted by a worker with consumers own, whose sender has
      consumers others. */
  lemma HandledCount<W>(all: set<W>, conns: seq<(W, W)>, registered: set<W>, e: W, own: set<W>, others: set<W>,
      receivers: set<W>, w: W)
    requires LeadsTo(all, conns, e, own) && w in all
    ensures (Piped(conns, e, receivers) + Broadcast(registered, receivers, others))[w] ==
            if w !in receivers then 0
            else (if w in own then 1 else 0) + (if w in registered && w !in others then 1 else 0)
  {
    PipedCount(conns, e, receivers, w);
  }

  /** Every receiver that is registered or a consumer of the emitter handles the message once, and
      no other worker handles it. */
  ghost predicate OnceEach<W>(all: set<W>, handled: multiset<W>, registered: set<W>, own: set<W>, receivers: set<W>) {
    forall w :: w in all ==> handled[w] == if w in receivers && (w in registered || w in own) then 1 else 0
  }

  /** Delivery is exactly-once exactly when the emitter and the sender named in the message have
      the same consumers among its registered receivers. */
  lemma OnceExactly<W>(all: set<W>, conns: seq<(W, W)>, registered: set<W>, e: W, own: set<W>, others: set<W>,
      receivers: set<W>)
    requires LeadsTo(all, conns, e, own) && registered <= all
    ensures OnceEach(all, Piped(conns, e, receivers) + Broadcast(registered, receivers, others),
                     registered, own, receivers) <==>
            registered * receivers * own == registered * receivers * others
  {
    var handled := Piped(conns, e, receivers) + Broadcast(registered, receivers, others);
    forall w | w in all ensures handled[w] == if w !in receivers then 0
                     else (if w in own then 1 else 0) + (if w in registered && w !in others then 1 else 0) {
      HandledCount(all, conns, registered, e, own, others, receivers, w);
    }
    hide LeadsTo, Piped, Broadcast;
    if registered * receivers * own == registered * receivers * others {
      forall w | w in all ensures handled[w] == if w in receivers && (w in registered || w in own) then 1 else 0 {
        assert w in registered * receivers * own <==> w in registered * receivers * others;
      }
    }
    if OnceEach(all, handled, registered, own, receivers) {
      forall w | w in all ensures w in registered * receivers * own <==> w in registered * receivers * others {
        assert handled[w] == if w in receivers && (w in registered || w in own) then 1 else 0;
      }
      assert registered * receivers * own == registered * receivers * others;
    }
  }

  lemma {:induction false} CountOnce<T>(s: seq<T>, x: T)
    requires forall i, j :: 0 <= i < j < |s| ==> s[i] != s[j]
    ensures multiset(s)[x] == if x in s then 1 else 0
    decreases |s|
  {
    if s != [] {
      CountOnce(s[1..], x);
      assert s == [s[0]] + s[1..];
      assert multiset(s)[x] == multiset([s[0]])[x] + multiset(s[1..])[x];
    }
  }

  // ---------- workers ----------

  class Worker {
    const name: string
    /** The flags of the worker's role. */
    const isConsumer: bool
    const isProducer: bool
    var consumers: set<Worker>
    var producers: set<Worker>
    /** The receivers of the messages the worker prepares. */
    var baseReceivers: set<Worker>
    var wasRun: bool

    constructor (name: string, isConsumer: bool, isProducer: bool)
      ensures this.name == name && this.isConsumer == isConsumer && this.isProducer == isProducer
      ensures consumers == producers == baseReceivers == {} && !wasRun
    {
      this.name, this.isConsumer, this.isProducer := name, isConsumer, isProducer;
      consumers, producers, baseReceivers, wasRun := {}, {}, {}, false;
    }

    /** False for the exception: a worker that has started asks the broker to connect it, which
        refuses started workers. */
    method AddConsumer(consumer: Worker) returns (ok: bool)
      modifies this`consumers, this`baseReceivers, consumer`producers
      ensures ok <==> !wasRun && (this in old(consumer.producers) || !consumer.wasRun)
      ensures consumers == old(consumers) + {consumer} && consumer.producers == old(consumer.producers) + {this}
      ensures baseReceivers ==
              old(baseReceivers) + if this in old(consumer.producers) || !consumer.wasRun then {consumer} else {}
      decreases if this in consumer.producers then 0 else 2
    {
      consumers := consumers + {consumer};
      if this !in consumer.producers {
        ok := consumer.AddProducer(this);
        if !ok { return; }
      }
      baseReceivers := baseReceivers + {consumer};
      ok := !wasRun;
    }

    method AddProducer(producer: Worker) returns (ok: bool)
      modifies this`producers, producer`consumers, producer`baseReceivers
      ensures ok <==> !wasRun && (this in old(producer.consumers) || !producer.wasRun)
      ensures producers == old(producers) + {producer} && producer.consumers == old(producer.consumers) + {this}
      ensures producer.baseReceivers ==
              old(producer.baseReceivers) + if this in old(producer.consumers) then {} else {this}
      decreases if this in producer.consumers then 1 else 3
    {
      producers := producers + {producer};
      if this !in producer.consumers {
        ok := producer.AddConsumer(this);
        if !ok { return; }
      }
      ok := !wasRun;
    }
  }

  // ---------- the broker ----------

  type Link = (Worker, Worker)

  predicate RolesAllow(c: Link) { c.0.isProducer && c.1.isConsumer }

  /** Every connection is listed once and allowed by the roles, every refused one is not, and the
      wired pipes are both together. */
  ghost predicate Listed(connections: seq<Link>, wired: seq<Link>, refused: seq<Link>) {
    && (forall i, j :: 0 <= i < j < |connections| ==> connections[i] != connections[j])
    && (forall i :: 0 <= i < |connections| ==> RolesAllow(connections[i]))
    && (forall i :: 0 <= i < |refused| ==> !RolesAllow(refused[i]))
    && multiset(wired) == multiset(connections) + multiset(refused)
  }

  lemma ListedMore(connections: seq<Link>, wired: seq<Link>, refused: seq<Link>, c: Link)
    requires Listed(connections, wired, refused) && c !in connections
    ensures RolesAllow(c) ==> Listed(connections + [c], wired + [c], refused)
    ensures !RolesAllow(c) ==> Listed(connections, wired + [c], refused + [c])
  {}

  /** WorkerMsg as far as routing goes. */
  datatype Message = Message(sender: Option<Worker>, receivers: set<Worker>, broadcast: bool)

  class Broker {
    var workers: map<string, Worker>
    var connections: seq<(Worker, Worker)>
    /** The pipes whose ends have been joined to their consumers. */
    var wired: seq<(Worker, Worker)>
    const allowSelfConnect: bool
    /** The workers that have taken part in anything. */
    ghost var known: set<Worker>
    /** The connections refused by a role; their pipes had been wired by then. */
    ghost var refused: seq<(Worker, Worker)>

    /** Consumers, producers and the receivers of prepared messages agree with the connection list,
        which holds no connection twice; the wired pipes are the connections and those that a role
        has refused. */
    ghost predicate Valid()
      reads this, known
    {
      && (forall n :: n in workers ==> workers[n] in known && workers[n].name == n)
      && (forall i :: 0 <= i < |connections| ==> connections[i].0 in known && connections[i].1 in known)
      && (forall p, c :: p in known && c in known ==>
            (c in p.consumers <==> p in c.producers) && (c in p.consumers <==> (p, c) in connections))
      && (forall p :: p in known ==> p.consumers <= known && p.producers <= known && p.baseReceivers == p.consumers)
      && Listed(connections, wired, refused)
    }

    function Registered(): set<Worker>
      reads this
    {
      workers.Values
    }

    constructor (allowSelfConnect: bool)
      ensures Valid() && workers == map[] && connections == wired == refused == [] &&
              this.allowSelfConnect == allowSelfConnect && known == {}
    {
      this.allowSelfConnect, workers, connections, known := allowSelfConnect, map[], [], {};
      wired, refused := [], [];
    }

    /** False for an exception. */
    method RegisterWorker(worker: Worker) returns (ok: bool)
      requires Valid()
      requires worker !in known ==> worker.consumers == worker.producers == worker.baseReceivers == {}
      modifies this
      ensures Valid() && connections == old(connections) && wired == old(wired) && refused == old(refused)
      ensures known == old(known) + if ok then {worker} else {}
      ensures ok <==> worker.name != "" && worker.name !in old(workers)
      ensures workers == if ok then old(workers)[worker.name := worker] else old(workers)
    {
      if worker.name == "" || worker.name in workers { return false; }
      workers := workers[worker.name := worker];
      known := known + {worker};
      ok := true;
    }

    /** connectTwo: false for an exception. A refusal by role comes when the pipe is wired already. */
    method ConnectTwo(producer: Worker, consumer: Worker) returns (ok: bool)
      requires Valid() && producer in known && consumer in known
      modifies this`connections, this`wired, this`refused, producer, consumer
      ensures Valid() && producer.wasRun == old(producer.wasRun) && consumer.wasRun == old(consumer.wasRun)
      ensures var tried :=
                && !old(producer.wasRun) && !old(consumer.wasRun) && (producer != consumer || allowSelfConnect)
                && (producer, consumer) !in old(connections);
              && (ok <==> tried && producer.isProducer && consumer.isConsumer)
              && connections == old(connections) + (if ok then [(producer, consumer)] else [])
              && wired == old(wired) + (if tried then [(producer, consumer)] else [])
              && refused == old(refused) + (if tried && !ok then [(producer, consumer)] else [])
    {
      if consumer.wasRun || producer.wasRun || (producer == consumer && !allowSelfConnect) { return false; }
      for i := 0 to |connections|
        invariant (producer, consumer) !in connections[..i]
      {
        if connections[i] == (producer, consumer) { return false; }
      }
      assert connections[..|connections|] == connections;
      ListedMore(connections, wired, refused, (producer, consumer));
      hide Listed;
      wired := wired + [(producer, consumer)];
      if !producer.isProducer || !consumer.isConsumer {
        refused := refused + [(producer, consumer)];
        return false;
      }
      connections := connections + [(producer, consumer)];
      if consumer !in producer.consumers {
        ok := producer.AddConsumer(consumer);
      }
      if producer !in consumer.producers {
        // AddConsumer has called AddProducer
        assert false;
      }
      ok := true;
    }

    /** connectTwo by names: false as well for a worker or an interceptor that is missing. */
    method ConnectNames(producer: string, consumer: string, pipe: seq<string>, interceptors: set<string>)
      returns (ok: bool)
      requires Valid()
      modifies this`connections, this`wired, this`refused, Registered()
      ensures Valid()
      ensures ok <==>
              && producer in workers && consumer in workers && (forall i :: 0 <= i < |pipe| ==> pipe[i] in interceptors)
              && !old(workers[producer].wasRun) && !old(workers[consumer].wasRun)
              && (producer != consumer || allowSelfConnect)
              && (workers[producer], workers[consumer]) !in old(connections)
              && workers[producer].isProducer && workers[consumer].isConsumer
      ensures ok ==> connections == old(connections) + [(workers[producer], workers[consumer])]
      ensures !ok ==> connections == old(connections)
    {
      if producer !in workers || consumer !in workers { return false; }
      for i := 0 to |pipe|
        invariant forall j :: 0 <= j < i ==> pipe[j] in interceptors
      {
        if pipe[i] !in interceptors { return false; }
      }
      ok := ConnectTwo(workers[producer], workers[consumer]);
    }

    /** The handlings of a message that emitter sends: its pipes, and onMsgFromWorker. False for
        the exception on a message without sender. */
    method Send(emitter: Worker, msg: Message) returns (handled: seq<Worker>, ok: bool)
      requires Valid()
      ensures ok <==> msg.broadcast || msg.sender.Some?
      ensures msg.broadcast ==> multiset(handled) == multiset(Registered())
      ensures !msg.broadcast && ok ==>
        multiset(handled) == Piped(wired, emitter, msg.receivers) +
                             Broadcast(Registered(), msg.receivers, msg.sender.value.consumers)
      ensures !ok ==> multiset(handled) == Piped(wired, emitter, msg.receivers)
    {
      handled := [];
      if !msg.broadcast {
        for i := |wired| downto 0
          invariant multiset(handled) == Piped(wired[i..], emitter, msg.receivers)
        {
          assert wired[i..][1..] == wired[i + 1..];
          if wired[i].0 == emitter && wired[i].1 in msg.receivers { handled := handled + [wired[i].1]; }
        }
        assert wired[0..] == wired;
        if msg.sender == None { return handled, false; }
      }
      var audience :=
        if msg.broadcast then Registered() else Registered() * (msg.receivers - msg.sender.value.consumers);
      var more := Called(Registered(), audience);
      handled := handled + more;
      ok := true;
    }

    /** broadcastToAll: every registered worker is called, and those of the audience handle. */
    method Called(todoAll: set<Worker>, audience: set<Worker>) returns (handled: seq<Worker>)
      requires audience <= todoAll
      ensures multiset(handled) == multiset(audience)
    {
      handled := [];
      var todo := todoAll;
      while todo != {}
        invariant todo <= todoAll
        invariant multiset(handled) == multiset(audience - todo)
        decreases todo
      {
        var w :| w in todo;
        if w in audience {
          assert audience - (todo - {w}) == (audience - todo) + {w};
          handled := handled + [w];
        } else {
          assert audience - (todo - {w}) == audience - todo;
        }
        todo := todo - {w};
      }
      assert audience - {} == audience;
    }
  }

  /** How many wired pipes lead from one worker to another. */
  lemma ValidWires(b: Broker, e: Worker, w: Worker)
    requires b.Valid() && e in b.known && w in b.known
    ensures multiset(b.wired)[(e, w)] == (if w in e.consumers then 1 else 0) + multiset(b.refused)[(e, w)]
    ensures w in e.consumers ==> (e, w) !in b.refused
  {
    CountOnce(b.connections, (e, w));
    assert multiset(b.wired)[(e, w)] == multiset(b.connections)[(e, w)] + multiset(b.refused)[(e, w)];
  }

  /** No role has refused a connection from e to one of the receivers. */
  ghost predicate NoneRefused(b: Broker, e: Worker, receivers: set<Worker>)
    reads b
  {
    forall w :: w in b.known && w in receivers ==> (e, w) !in b.refused
  }

  /** In any network built by connectTwo, a message that its sender emits is handled exactly once by
      each receiver that is registered or connected, and by no other worker, exactly when no role
      has refused to connect the sender to one of the receivers. */
  lemma DeliveredOnce(b: Broker, sender: Worker, receivers: set<Worker>)
    requires b.Valid() && sender in b.known
    ensures OnceEach(b.known, Piped(b.wired, sender, receivers) +
                              Broadcast(b.Registered(), receivers, sender.consumers),
                     b.Registered(), sender.consumers, receivers) <==>
            NoneRefused(b, sender, receivers)
  {
    var handled := Piped(b.wired, sender, receivers) + Broadcast(b.Registered(), receivers, sender.consumers);
    hide Listed, Piped;
    forall w | w in b.known
      ensures handled[w] == (if w in receivers && (w in b.Registered() || w in sender.consumers) then 1 else 0) +
                            (if w in receivers then multiset(b.refused)[(sender, w)] else 0)
    {
      PipedCount(b.wired, sender, receivers, w);
      ValidWires(b, sender, w);
    }
  }

  lemma RegisteredKnown(b: Broker)
    requires b.Valid()
    ensures b.Registered() <= b.known
  {
    forall w | w in b.Registered() ensures w in b.known {
      var n :| n in b.workers && b.workers[n] == w;
    }
  }

  /** A message emitted for another sender, to workers to which the emitter was not refused, is
      handled exactly once exactly when the two have the same consumers among its registered
      receivers. */
  lemma ForwardedOnceExactly(b: Broker, emitter: Worker, sender: Worker, receivers: set<Worker>)
    requires b.Valid() && emitter in b.known && sender in b.known && NoneRefused(b, emitter, b.known)
    ensures OnceEach(b.known, Piped(b.wired, emitter, receivers) +
                              Broadcast(b.Registered(), receivers, sender.consumers),
                     b.Registered(), emitter.consumers, receivers) <==>
            b.Registered() * receivers * emitter.consumers == b.Registered() * receivers * sender.consumers
  {
    forall w | w in b.known ensures multiset(b.wired)[(emitter, w)] == if w in emitter.consumers then 1 else 0 {
      ValidWires(b, emitter, w);
    }
    RegisteredKnown(b);
    OnceExactly(b.known, b.wired, b.Registered(), emitter, emitter.consumers, sender.consumers, receivers);
  }

  /** Two networks of three workers in which a worker that sends on a message as it came delivers it
      twice, or not at all: it is connected to the receiver and the message's sender is not, and the
      other way round. */
  lemma TwiceOrNever<W>(relay: W, source: W, w: W)
    requires relay != source && relay != w && source != w
    ensures var all, conns := {relay, source, w}, [(relay, w)];
            && LeadsTo(all, conns, relay, {w}) && LeadsTo(all, conns, source, {})
            && (Piped(conns, relay, {w}) + Broadcast(all, {w}, {}))[w] == 2
    ensures var all, conns := {relay, source, w}, [(source, w)];
            && LeadsTo(all, conns, source, {w}) && LeadsTo(all, conns, relay, {})
            && (Piped(conns, relay, {w}) + Broadcast(all, {w}, {w}))[w] == 0
  {
    PipedCount([(relay, w)], relay, {w}, w);
    PipedCount([(source, w)], relay, {w}, w);
  }

  /** A message a worker prepares reaches each of its consumers exactly once, through the pipe. */
  lemma PreparedReachesConsumers(b: Broker, sender: Worker, w: Worker)
    requires b.Valid() && sender in b.known && w in b.known
    ensures Piped(b.wired, sender, sender.baseReceivers)[w] == (if w in sender.consumers then 1 else 0)
    ensures Broadcast(b.Registered(), sender.baseReceivers, sender.consumers) == multiset{}
  {
    ValidWires(b, sender, w);
    PipedCount(b.wired, sender, sender.baseReceivers, w);
  }
}
