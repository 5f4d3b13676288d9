/** The read and write queues of a Modbus master and what it does when the bus is its own. */
module MasterQueues {
  import opened Keys
  import opened ModbusUnits

  /** inFlight is the request whose QModbusReply is alive. */
  datatype Master = Master(readQueue: seq<Unit>, writeQueue: seq<Unit>, connected: bool, inFlight: Option<Unit>)

  /** The signals towards the channel. */
  datatype Signal = Silence | AskTrigger | AllQueriesDone

  predicate HasWork(m: Master) { m.readQueue != [] || m.writeQueue != [] }

  predicate SameQuery(a: Unit, b: Unit) { a.table == b.table && a.start == b.start && |a.values| == |b.values| }

  predicate Queued(queue: seq<Unit>, u: Unit) { exists i :: 0 <= i < |queue| && SameQuery(queue[i], u) }

  function EnqueueRead(m: Master, u: Unit): (Master, Signal) {
    if Queued(m.readQueue, u) then (m, Silence) else (m.(readQueue := m.readQueue + [u]), AskTrigger)
  }

  function EnqueueWrite(m: Master, u: Unit): (Master, Signal) {
    (m.(writeQueue := m.writeQueue + [u]), AskTrigger)
  }

  /** Writes go before reads; without a connection the turn is given back at once. */
  function ExecuteNext(m: Master): (Master, Signal) {
    if !m.connected then (m, AllQueriesDone)
    else if m.writeQueue != [] then (m.(writeQueue := m.writeQueue[1..], inFlight := Some(m.writeQueue[0])), Silence)
    else if m.readQueue != [] then (m.(readQueue := m.readQueue[1..], inFlight := Some(m.readQueue[0])), Silence)
    else (m, AllQueriesDone)
  }

  /** The queue after a poll and how many asks the poll posts. */
  function Poll(m: Master, queries: seq<Unit>): (Master, nat)
    decreases |queries|
  {
    if queries == [] then (m, 0)
    else
      var (first, signal) := EnqueueRead(m, queries[0]);
      var (last, asks) := Poll(first, queries[1..]);
      (last, asks + if signal == AskTrigger then 1 else 0)
  }

  /** No two queries of the queue have the same table, address and count. */
  predicate OnceEach(queue: seq<Unit>) {
    forall i, j :: 0 <= i < j < |queue| ==>
      queue[i].table != queue[j].table || queue[i].start != queue[j].start || |queue[i].values| != |queue[j].values|
  }

  /** A query with the table, address and count of u is in the queue. */
  predicate Asked(queue: seq<Unit>, u: Unit) {
    exists i :: 0 <= i < |queue| && queue[i].table == u.table && queue[i].start == u.start &&
                |queue[i].values| == |u.values|
  }

  lemma QueuedIsAsked(queue: seq<Unit>, u: Unit)
    ensures Queued(queue, u) <==> Asked(queue, u)
  {
    if Asked(queue, u) {
      var i :| 0 <= i < |queue| && queue[i].table == u.table && queue[i].start == u.start &&
               |queue[i].values| == |u.values|;
      assert SameQuery(queue[i], u);
    }
  }

  /** What one enqueueRead of a poll does. */
  lemma OneQueued(m: Master, u: Unit)
    requires OnceEach(m.readQueue)
    ensures var (first, signal) := EnqueueRead(m, u);
            && OnceEach(first.readQueue) && Asked(first.readQueue, u) && first == m.(readQueue := first.readQueue)
            && (if Asked(m.readQueue, u) then first == m && signal == Silence
                else first.readQueue == m.readQueue + [u] && signal == AskTrigger)
  {
    QueuedIsAsked(m.readQueue, u);
    var queue := m.readQueue + [u];
    assert queue[|m.readQueue|] == u;
  }

  /** A poll queues what is not queued yet, once, behind what is, and asks once for each
      query it adds. */
  lemma {:induction false} PollQueues(m: Master, queries: seq<Unit>)
    requires OnceEach(m.readQueue)
    ensures var (p, asks) := Poll(m, queries);
            && OnceEach(p.readQueue)
            && |p.readQueue| == |m.readQueue| + asks
            && p.readQueue[..|m.readQueue|] == m.readQueue
            && p == m.(readQueue := p.readQueue)
            && (forall u :: u in queries ==> Asked(p.readQueue, u))
            && (forall i :: |m.readQueue| <= i < |p.readQueue| ==>
                  p.readQueue[i] in queries && !Asked(m.readQueue, p.readQueue[i]))
    decreases |queries|
  {
    hide EnqueueRead, OnceEach, Asked;
    if queries == [] {
      assert m.readQueue[..|m.readQueue|] == m.readQueue;
    } else {
      var first := EnqueueRead(m, queries[0]).0;
      OneQueued(m, queries[0]);
      PollQueues(first, queries[1..]);
      var p := Poll(m, queries).0;
      assert first.readQueue <= p.readQueue;
      StillAsked(first.readQueue, p.readQueue, queries[0]);
      forall i | |m.readQueue| <= i < |p.readQueue|
        ensures p.readQueue[i] in queries && !Asked(m.readQueue, p.readQueue[i])
      {
        if i >= |first.readQueue| {
          NotAskedBefore(m.readQueue, first.readQueue, p.readQueue[i]);
        } else {
          assert p.readQueue[i] == first.readQueue[i] == queries[0];
        }
      }
      assert p.readQueue[..|m.readQueue|] == p.readQueue[..|first.readQueue|][..|m.readQueue|];
    }
  }

  lemma StillAsked(before: seq<Unit>, after: seq<Unit>, u: Unit)
    requires before <= after && Asked(before, u)
    ensures Asked(after, u)
  {
    var i :| 0 <= i < |before| && before[i].table == u.table && before[i].start == u.start &&
             |before[i].values| == |u.values|;
    assert after[i] == before[i];
  }

  lemma NotAskedBefore(before: seq<Unit>, after: seq<Unit>, u: Unit)
    requires before <= after && !Asked(after, u)
    ensures !Asked(before, u)
  {
    if Asked(before, u) { StillAsked(before, after, u); }
  }

  /** The requests put on the bus by successive turns, until a turn is given back. */
  function Served(m: Master): seq<Unit>
    decreases |m.writeQueue| + |m.readQueue|
  {
    var (m1, signal) := ExecuteNext(m);
    if signal == AllQueriesDone then [] else [m1.inFlight.value] + Served(m1)
  }

  /** Without new requests a connected master serves all queued writes and then all queued reads,
      each in the order they were queued; a disconnected one serves none. */
  lemma {:induction false} ServesInOrder(m: Master)
    ensures Served(m) == if m.connected then m.writeQueue + m.readQueue else []
    decreases |m.writeQueue| + |m.readQueue|
  {
    if m.connected && HasWork(m) { ServesInOrder(ExecuteNext(m).0); }
  }

  /** A new write is served after the writes queued before it, a new read after everything queued; a
      read that is queued already is served once. */
  lemma WantedIsServed(m: Master, u: Unit)
    requires m.connected
    ensures Served(EnqueueWrite(m, u).0) == m.writeQueue + [u] + m.readQueue
    ensures Served(EnqueueRead(m, u).0) == m.writeQueue + m.readQueue + if Asked(m.readQueue, u) then [] else [u]
  {
    ServesInOrder(EnqueueWrite(m, u).0);
    ServesInOrder(EnqueueRead(m, u).0);
    QueuedIsAsked(m.readQueue, u);
    assert m.writeQueue + (m.readQueue + [u]) == m.writeQueue + m.readQueue + [u];
  }

  class ModbusMaster {
    var readQueue: seq<Unit>
    var writeQueue: seq<Unit>
    var connected: bool
    var inFlight: Option<Unit>
    const queries: seq<Unit>

    ghost function State(): Master
      reads this
    {
      Master(readQueue, writeQueue, connected, inFlight)
    }

    constructor (queries: seq<Unit>)
      ensures State() == Master([], [], false, None) && this.queries == queries
    {
      readQueue, writeQueue, connected, inFlight, this.queries := [], [], false, None, queries;
    }

    method EnqeueRead(unit: Unit) returns (signal: Signal)
      modifies this
      ensures (State(), signal) == EnqueueRead(old(State()), unit)
    {
      for i := 0 to |readQueue|
        invariant forall j :: 0 <= j < i ==> !SameQuery(readQueue[j], unit)
        invariant State() == old(State())
      {
        if SameQuery(readQueue[i], unit) { return Silence; }
      }
      readQueue := readQueue + [unit];
      signal := AskTrigger;
    }

    method EnqeueWrite(unit: Unit) returns (signal: Signal)
      modifies this
      ensures (State(), signal) == EnqueueWrite(old(State()), unit)
    {
      writeQueue := writeQueue + [unit];
      signal := AskTrigger;
    }

    /** The number of asks is the result. */
    method DoRead() returns (asks: nat)
      modifies this
      ensures (State(), asks) == if old(connected) then Poll(old(State()), queries) else (old(State()), 0)
    {
      asks := 0;
      if !connected { return; }
      ghost var whole := Poll(State(), queries);
      for i := 0 to |queries|
        invariant Poll(State(), queries[i..]).0 == whole.0 && asks + Poll(State(), queries[i..]).1 == whole.1
      {
        assert queries[i..][1..] == queries[i + 1..];
        var signal := EnqeueRead(queries[i]);
        if signal == AskTrigger { asks := asks + 1; }
      }
    }

    method Next() returns (signal: Signal)
      modifies this
      ensures (State(), signal) == ExecuteNext(old(State()))
    {
      if !connected { return AllQueriesDone; }
      if writeQueue != [] {
        inFlight, writeQueue := Some(writeQueue[0]), writeQueue[1..];
        signal := Silence;
      } else if readQueue != [] {
        inFlight, readQueue := Some(readQueue[0]), readQueue[1..];
        signal := Silence;
      } else {
        signal := AllQueriesDone;
      }
    }

    /** connectDevice: a device that refuses is tried again later, one that accepts makes the master
        ask for what is queued. */
    method ConnectDevice(accepted: bool) returns (signal: Signal, retry: bool)
      ensures retry <==> !accepted
      ensures signal == if accepted && HasWork(State()) then AskTrigger else Silence
    {
      if !accepted { return Silence, true; }
      signal := if writeQueue != [] || readQueue != [] then AskTrigger else Silence;
      retry := false;
    }
  }
}
