/** What a master reads when it polls: one word is asked for per readable register, the asked words
    are coalesced, and each reply is decoded. */
module ModbusPoll {
  import opened WordOperations
  import opened ModbusUnits
  import opened ModbusMerge
  import opened ModbusScan

  /** Registers of the device, each once, in tables that can be polled. */
  ghost predicate Pollable(d: Device, names: seq<string>) {
    && (forall i :: 0 <= i < |names| ==> names[i] in d.regs && d.regs[names[i]].table != Invalid)
    && (forall i, j :: 0 <= i < j < |names| ==> names[i] != names[j])
  }

  /** The units the master's constructor hands to mergeDataUnits: the index of each readable
      register, with a count of one. */
  function Queries(d: Device, names: seq<string>): (units: seq<Unit>)
    requires forall i :: 0 <= i < |names| ==> names[i] in d.regs
    ensures |units| == |names|
    ensures forall i :: 0 <= i < |names| ==> units[i] == Unit(d.regs[names[i]].table, d.regs[names[i]].index, [0])
  {
    seq(|names|, i requires 0 <= i < |names| => Unit(d.regs[names[i]].table, d.regs[names[i]].index, [0]))
  }

  /** The names of the one-word registers at the n addresses from start on. */
  function Singles(d: Device, t: Table, start: nat, n: nat): multiset<string>
    requires d.Named()
    decreases n
  {
    if n == 0 then multiset{}
    else
      (if (t, start) in d.rev && !Long(d, t, start) then multiset{d.rev[(t, start)]} else multiset{}) +
      Singles(d, t, start + 1, n - 1)
  }

  lemma {:induction false} SinglesSplit(d: Device, t: Table, start: nat, a: nat, b: nat)
    requires d.Named()
    ensures Singles(d, t, start, a + b) == Singles(d, t, start, a) + Singles(d, t, start + a, b)
    decreases a
  {
    if a > 0 { SinglesSplit(d, t, start + 1, a - 1, b); }
  }

  /** A register starts at every address of the query. */
  ghost predicate Covered(d: Device, u: Unit) { Full(d, u.table, u.start, End(u)) }

  ghost predicate Full(d: Device, t: Table, from: nat, to: nat) { forall a: nat :: from <= a < to ==> Starts(d, t, a) }

  predicate Starts(d: Device, t: Table, address: nat) { (t, address) in d.rev }

  ghost function SinglesOf(d: Device): Unit -> multiset<string>
    requires d.Named()
  {
    (u: Unit) => Singles(d, u.table, u.start, |u.values|)
  }

  lemma FuseSingles(d: Device, a: Unit, b: Unit)
    requires d.Named() && Covered(d, a) && Covered(d, b) && Adjacent(a, b)
    ensures Covered(d, Fuse(a, b)) && SinglesOf(d)(Fuse(a, b)) == SinglesOf(d)(a) + SinglesOf(d)(b)
  {
    SinglesSplit(d, a.table, a.start, |a.values|, |b.values|);
  }

  function Names(readings: seq<Reading>): multiset<string> {
    if readings == [] then multiset{} else multiset{readings[0].0} + Names(readings[1..])
  }

  lemma NamesMore(x: Reading, rest: seq<Reading>)
    ensures Names([x] + rest) == multiset{x.0} + Names(rest)
  {
    assert ([x] + rest)[1..] == rest;
  }

  lemma LongIsLast(d: Device, t: Table, address: nat, size: nat, i: nat)
    requires d.Named() && Disjoint(d) && Full(d, t, address, address + size) && i < size
    ensures (t, address + i) in d.rev && (Long(d, t, address + i) ==> i == size - 1)
  {
    assert Starts(d, t, address + i);
    assert i + 1 < size ==> Starts(d, t, address + i + 1);
  }

  lemma SinglesStep(d: Device, t: Table, start: nat, n: nat)
    requires d.Named() && n > 0 && (t, start) in d.rev
    ensures Long(d, t, start) && n == 1 ==> Singles(d, t, start, n) == multiset{}
    ensures !Long(d, t, start) ==>
              Singles(d, t, start, n) == multiset{d.rev[(t, start)]} + Singles(d, t, start + 1, n - 1)
  {}

  /** Where a register starts at every word of the reply and none reaches over another, the decode
      loop reads the one-word registers and stops at the first of two words, which is the last. */
  lemma {:induction false} ReplyReads(d: Device, t: Table, address: nat, words: seq<Word>, i: nat)
    requires d.Named() && Disjoint(d) && i <= |words|
    requires Full(d, t, address, address + |words|)
    ensures Names(ScanFrom(d, t, address, words, i).readings) == Singles(d, t, address + i, |words| - i)
    decreases |words| - i
  {
    hide ScanFrom, DecodeWords, Names, Full, Disjoint, Singles;
    ScanUnfold(d, t, address, words, i);
    if i == |words| {
      NoNames(d, t, address + i);
    } else {
      LongIsLast(d, t, address, |words|, i);
      SinglesStep(d, t, address + i, |words| - i);
      if Long(d, t, address + i) {
        NoNames(d, t, address + i);
      } else {
        NamesMore(ReadingAt(d, t, address, words, i), ScanFrom(d, t, address, words, i + 1).readings);
        ReplyReads(d, t, address, words, i + 1);
      }
    }
  }

  lemma NoNames(d: Device, t: Table, start: nat)
    requires d.Named()
    ensures Names([]) == Singles(d, t, start, 0) == multiset{}
  {}

  /** The names read from the replies to the queries. */
  function Polled(d: Device, queries: seq<Unit>, replies: seq<seq<Word>>): multiset<string>
    requires d.Named() && |replies| == |queries|
  {
    if queries == [] then multiset{}
    else
      Names(ScanFrom(d, queries[0].table, queries[0].start, replies[0], 0).readings) +
      Polled(d, queries[1..], replies[1..])
  }

  lemma OneReply(d: Device, query: Unit, reply: seq<Word>)
    requires d.Named() && Disjoint(d) && Covered(d, query) && |reply| == |query.values|
    ensures Names(ScanFrom(d, query.table, query.start, reply, 0).readings) == SinglesOf(d)(query)
  {
    hide Names, Full, Disjoint, Singles, ScanFrom;
    ReplyReads(d, query.table, query.start, reply, 0);
  }

  lemma {:induction false} PolledSingles(d: Device, queries: seq<Unit>, replies: seq<seq<Word>>)
    requires d.Named() && Disjoint(d) && |replies| == |queries|
    requires forall i :: 0 <= i < |queries| ==> Covered(d, queries[i]) && |replies[i]| == |queries[i].values|
    ensures Polled(d, queries, replies) == Sum(SinglesOf(d), queries)
    decreases |queries|
  {
    hide ScanFrom, Disjoint, Covered, Names, SinglesOf;
    if queries != [] {
      OneReply(d, queries[0], replies[0]);
      PolledSingles(d, queries[1..], replies[1..]);
    }
  }

  predicate OneWord(d: Device, name: string)
    requires name in d.regs
  {
    d.regs[name].regType.SizeWords() == 1
  }

  function OneWordNames(d: Device, names: seq<string>): seq<string>
    requires forall i :: 0 <= i < |names| ==> names[i] in d.regs
  {
    if names == [] then [] else (if OneWord(d, names[0]) then [names[0]] else []) + OneWordNames(d, names[1..])
  }

  lemma {:induction false} QueriedSingles(d: Device, names: seq<string>)
    requires d.Ok() && Pollable(d, names)
    ensures Sum(SinglesOf(d), Queries(d, names)) == multiset(OneWordNames(d, names))
    decreases |names|
  {
    if names != [] {
      var r := d.regs[names[0]];
      var first := Unit(r.table, r.index, [0]);
      assert Queries(d, names) == [first] + Queries(d, names[1..]);
      SumCons(SinglesOf(d), first, Queries(d, names[1..]));
      QueriedSingles(d, names[1..]);
      assert d.rev[(r.table, r.index)] == names[0];
      assert Singles(d, r.table, r.index + 1, 0) == multiset{};
    }
  }

  lemma QueriesApart(d: Device, names: seq<string>)
    requires d.Ok() && Pollable(d, names)
    ensures DistinctStarts(Queries(d, names)) && NonEmpty(Queries(d, names))
    ensures forall i :: 0 <= i < |names| ==> Queries(d, names)[i].table != Invalid && Covered(d, Queries(d, names)[i])
  {
    forall i | 0 <= i < |names| ensures Covered(d, Queries(d, names)[i]) {
      assert Starts(d, d.regs[names[i]].table, d.regs[names[i]].index);
    }
  }

  /** Whatever the replies hold, a poll of a device without overlapping registers decodes each
      readable one-word register once and no register of two words. */
  lemma PollDecodesSingles(d: Device, names: seq<string>, replies: seq<seq<Word>>)
    requires d.Ok() && Disjoint(d) && Pollable(d, names)
    requires |replies| == |MergeUnits(Queries(d, names))|
    requires forall i :: 0 <= i < |replies| ==> |replies[i]| == |MergeUnits(Queries(d, names))[i].values|
    ensures Polled(d, MergeUnits(Queries(d, names)), replies) == multiset(OneWordNames(d, names))
  {
    var units := Queries(d, names);
    var ok := (u: Unit) => Covered(d, u);
    var f := SinglesOf(d);
    hide MergeUnits, Queries, Covered, SinglesOf, Pollable, DistinctStarts, NonEmpty, InTable, Sum, Disjoint, Polled,
         OneWordNames;
    QueriesApart(d, names);
    QueriedSingles(d, names);
    assert Additive(ok, f) by {
      forall a, b | ok(a) && ok(b) && Adjacent(a, b) ensures ok(Fuse(a, b)) && f(Fuse(a, b)) == f(a) + f(b) {
        FuseSingles(d, a, b);
      }
    }
    MergeConserves(ok, f, units);
    TablesPartition(f, units);
    var queries := MergeUnits(units);
    forall i | 0 <= i < |queries| ensures Covered(d, queries[i]) { assert ok(queries[i]); }
    PolledSingles(d, queries, replies);
  }
}
