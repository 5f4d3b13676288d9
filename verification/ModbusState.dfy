/** The slave's register map after a whole message has been encoded, coalesced and scanned. */
module ModbusState {
  import opened WordOperations
  import opened ModbusUnits
  import opened ModbusMerge
  import opened ModbusScan

  type State = map<string, RegValue>

  /** The state after the blocks have been handled one after the other. */
  function HandledAll(d: Device, state: State, blocks: seq<Unit>): State
    requires d.Named()
    decreases |blocks|
  {
    if blocks == [] then state else HandledAll(d, Handled(d, state, blocks[0]), blocks[1..])
  }

  /** Readings of registers of the device, all of one register with one value. */
  ghost predicate Steady(d: Device, all: multiset<Reading>) {
    && (forall x :: x in all ==> x.0 in d.regs)
    && (forall x, y :: x in all && y in all && x.0 == y.0 ==> x == y)
  }

  /** The state holds each reading as its table stores it, and nothing else. */
  ghost predicate Remembers(d: Device, state: State, all: multiset<Reading>) {
    && (forall x :: x in all ==> x.0 in d.regs && x.0 in state && state[x.0] == Stored(d.regs[x.0].table, x.1))
    && (forall name :: name in state ==> exists v :: (name, v) in all)
  }

  lemma HoldMore(d: Device, state: State, all: multiset<Reading>, x: Reading)
    requires Remembers(d, state, all) && Steady(d, all + multiset{x})
    ensures Remembers(d, state[x.0 := Stored(d.regs[x.0].table, x.1)], all + multiset{x})
  {
    hide Stored;
    var more := all + multiset{x};
    var now := state[x.0 := Stored(d.regs[x.0].table, x.1)];
    forall y | y in more ensures y.0 in d.regs && y.0 in now && now[y.0] == Stored(d.regs[y.0].table, y.1) {
      assert x in more && y in more;
    }
    forall name | name in now ensures exists v :: (name, v) in more {
      if name == x.0 {
        assert (name, x.1) in more;
      } else {
        var v :| (name, v) in all;
        assert (name, v) in more;
      }
    }
  }

  lemma SteadyPart(d: Device, all: multiset<Reading>, part: multiset<Reading>)
    requires Steady(d, all) && part <= all
    ensures Steady(d, part)
  {
    assert forall x :: x in part ==> x in all;
  }

  /** Applying readings of registers of one table adds them to what is held. */
  lemma {:induction false} AppliedHolds(d: Device, state: State, diff: State, table: Table, readings: seq<Reading>,
                                        all: multiset<Reading>)
    requires Remembers(d, state, all) && Steady(d, all + multiset(readings))
    requires forall i :: 0 <= i < |readings| ==> readings[i].0 in d.regs && d.regs[readings[i].0].table == table
    ensures Remembers(d, Applied(state, diff, table, readings).0, all + multiset(readings))
    decreases |readings|
  {
    hide Remembers, Steady, Stored, Applied;
    if readings == [] {
      AppliedNothing(state, diff, table);
      assert all + multiset(readings) == all;
    } else {
      var x, rest := readings[0], readings[1..];
      assert readings == [x] + rest;
      assert all + multiset(readings) == all + multiset{x} + multiset(rest);
      var v := Stored(table, x.1);
      SteadyPart(d, all + multiset(readings), all + multiset{x});
      HoldMore(d, state, all, x);
      AppliedStep(state, diff, table, x, rest);
      var same := x.0 in state && state[x.0] == v;
      assert same ==> state[x.0 := v] == state;
      AppliedHolds(d, state[x.0 := v], if same then diff else diff[x.0 := v], table, rest, all + multiset{x});
    }
  }

  /** A scan reads registers of the scanned table only. */
  lemma {:induction false} ScanOfTable(d: Device, table: Table, address: nat, words: seq<Word>, i: nat)
    requires d.Ok()
    ensures var readings := ScanFrom(d, table, address, words, i).readings;
            forall k :: 0 <= k < |readings| ==> readings[k].0 in d.regs && d.regs[readings[k].0].table == table
    decreases |words| - i
  {
    hide ScanFrom;
    ScanUnfold(d, table, address, words, i);
    if i < |words| && (table, address + i) in d.rev {
      assert d.rev[(table, address + i)] in d.regs;
      ScanOfTable(d, table, address, words, i + d.At(table, address + i).regType.SizeWords());
    } else if i < |words| {
      ScanOfTable(d, table, address, words, i + 1);
    }
  }

  lemma HandledHolds(d: Device, state: State, block: Unit, all: multiset<Reading>)
    requires d.Ok() && Remembers(d, state, all) && Steady(d, all + Readings(d, block))
    ensures Remembers(d, Handled(d, state, block), all + Readings(d, block))
  {
    hide Remembers, Steady, ScanFrom, Applied;
    ScanOfTable(d, block.table, block.start, block.values, 0);
    assert Readings(d, block) == multiset(ScanFrom(d, block.table, block.start, block.values, 0).readings);
    AppliedHolds(d, state, map[], block.table, ScanFrom(d, block.table, block.start, block.values, 0).readings, all);
  }

  lemma {:induction false} HandledAllHolds(d: Device, state: State, blocks: seq<Unit>, all: multiset<Reading>)
    requires d.Ok() && Remembers(d, state, all) && Steady(d, all + Sum(Reader(d), blocks))
    ensures Remembers(d, HandledAll(d, state, blocks), all + Sum(Reader(d), blocks))
    decreases |blocks|
  {
    hide Remembers, Steady, Readings, Handled;
    if blocks == [] {
      assert all + Sum(Reader(d), blocks) == all;
    } else {
      var first := Readings(d, blocks[0]);
      assert all + Sum(Reader(d), blocks) == all + first + Sum(Reader(d), blocks[1..]);
      SteadyPart(d, all + Sum(Reader(d), blocks), all + first);
      HandledHolds(d, state, blocks[0], all);
      HandledAllHolds(d, Handled(d, state, blocks[0]), blocks[1..], all + first);
    }
  }

  lemma AssignmentSteady(d: Device, vals: seq<Reading>)
    requires Assignment(d, vals)
    ensures Steady(d, multiset(vals))
  {
    var all := multiset(vals);
    forall x, y | x in all && y in all && x.0 == y.0 ensures x == y {
      var i :| 0 <= i < |vals| && vals[i] == x;
      var j :| 0 <= j < |vals| && vals[j] == y;
      assert i == j;
    }
    forall x | x in all ensures x.0 in d.regs {
      var i :| 0 <= i < |vals| && vals[i] == x;
    }
  }

  /** What the slave shows for a register of the table that was given v: the value itself, but in the
      two tables of bits whether the number is other than zero. */
  ghost predicate Shows(state: State, name: string, table: Table, v: RegValue) {
    && name in state
    && (table == Holding || table == Input ==> state[name] == v)
    && (table == Coils || table == Discrete ==>
          match v
          case UShort(n) => state[name] == Flag(n != 0)
          case UInt(n) => state[name] == Flag(n != 0)
          case Float(bits) => state[name] == Flag(bits % 0x8000_0000 != 0)
          case Flag(on) => state[name] == Flag(on))
  }

  lemma StoredShows(state: State, name: string, table: Table, v: RegValue)
    requires name in state && state[name] == Stored(table, v)
    requires v.Float? ==> v.bits < 0x1_0000_0000
    ensures Shows(state, name, table, v)
  {}

  /** The state is exactly the given values, each as the table of its register shows it. */
  ghost predicate Learnt(d: Device, state: State, vals: seq<Reading>) {
    && (forall name :: name in state ==> exists i :: 0 <= i < |vals| && vals[i].0 == name)
    && (forall i :: 0 <= i < |vals| ==>
          vals[i].0 in d.regs && Shows(state, vals[i].0, d.regs[vals[i].0].table, vals[i].1))
  }

  lemma NothingHeld(d: Device)
    ensures Remembers(d, map[], multiset{})
  {}

  lemma RememberedIsLearnt(d: Device, state: State, vals: seq<Reading>)
    requires Remembers(d, state, multiset(vals)) && Assignment(d, vals)
    ensures Learnt(d, state, vals)
  {
    hide Stored, Shows;
    forall name | name in state ensures exists i :: 0 <= i < |vals| && vals[i].0 == name {
      var v :| (name, v) in multiset(vals);
      assert (name, v) in vals;
    }
    forall i | 0 <= i < |vals|
      ensures vals[i].0 in d.regs && Shows(state, vals[i].0, d.regs[vals[i].0].table, vals[i].1)
    {
      assert vals[i] in multiset(vals);
      assert vals[i].1.Has(d.regs[vals[i].0].regType);
      StoredShows(state, vals[i].0, d.regs[vals[i].0].table, vals[i].1);
    }
  }

  /** Values given to registers, encoded, coalesced and handled block by block by a slave that knew
      nothing: it holds exactly those registers, each with its value as its table shows it. */
  lemma SlaveLearnsMessage(d: Device, vals: seq<Reading>)
    requires d.Ok() && Assignment(d, vals)
    ensures Learnt(d, HandledAll(d, map[], MergeUnits(Encoded(d, vals))), vals)
  {
    var blocks, all := MergeUnits(Encoded(d, vals)), multiset(vals);
    assert multiset{} + all == all;
    assert Sum(Reader(d), blocks) == all by {
      hide *;
      ReadBack(d, vals);
    }
    hide *;
    AssignmentSteady(d, vals);
    NothingHeld(d);
    HandledAllHolds(d, map[], blocks, multiset{});
    RememberedIsLearnt(d, HandledAll(d, map[], blocks), vals);
  }

  lemma ReadBack(d: Device, vals: seq<Reading>)
    requires d.Ok() && Assignment(d, vals)
    ensures Sum(Reader(d), MergeUnits(Encoded(d, vals))) == multiset(vals)
  {
    EncodeMergeScan(d, vals);
  }

  /** None of those blocks makes the slave's loop turn for ever. */
  lemma MessageBlocksEnd(d: Device, vals: seq<Reading>, u: Unit)
    requires d.Ok() && Assignment(d, vals) && u in MergeUnits(Encoded(d, vals))
    ensures !Straddled(d, u.table, u.start, |u.values|)
  {
    hide MergeUnits, Encoded, ScanFrom, Straddled, Assignment;
    EncodeMergeScan(d, vals);
    assert Overlaid(d, u.table, u.start, 0) == 0;
    StuckAtEnd(d, u.table, u.start, u.values, 0);
  }

  // ---------- one block ----------

  ghost predicate Different(readings: seq<Reading>) {
    forall i, j :: 0 <= i < j < |readings| ==> readings[i].0 != readings[j].0
  }

  /** A scan goes up the addresses and so reads no register twice. */
  lemma {:induction false} ScanReadsOnce(d: Device, table: Table, address: nat, words: seq<Word>, i: nat)
    requires d.Ok()
    ensures var readings := ScanFrom(d, table, address, words, i).readings;
            Different(readings) &&
            forall k :: 0 <= k < |readings| ==>
              && readings[k].0 in d.regs && d.regs[readings[k].0].index >= address + i
              && readings[k].1.Has(d.regs[readings[k].0].regType)
    decreases |words| - i
  {
    hide ScanFrom, DecodeWords;
    ScanUnfold(d, table, address, words, i);
    if i < |words| && (table, address + i) in d.rev {
      var r := d.At(table, address + i);
      assert (r.table, r.index) == (table, address + i);
      if i + r.regType.SizeWords() <= |words| {
        ScanReadsOnce(d, table, address, words, i + r.regType.SizeWords());
        DecodedHas(d.host, r, words[i..i + r.regType.SizeWords()]);
      }
    } else if i < |words| {
      ScanReadsOnce(d, table, address, words, i + 1);
    }
  }

  lemma DecodedHas(host: Order, r: RegInfo, ws: seq<Word>)
    requires |ws| == r.regType.SizeWords()
    ensures DecodeWords(host, r, ws).Has(r.regType)
  {}

  /** What the loop keeps of what it has read: the values of the state, and in the difference those of
      them that are new. */
  lemma {:induction false} AppliedShows(before: State, state: State, diff: State, table: Table, readings: seq<Reading>)
    requires Different(readings)
    requires forall i :: 0 <= i < |readings| ==>
               readings[i].0 !in diff && (readings[i].0 in state <==> readings[i].0 in before) &&
               (readings[i].0 in state ==> state[readings[i].0] == before[readings[i].0])
    requires forall name :: name in diff <==> name in state && (name !in before || before[name] != state[name])
    requires forall name :: name in diff ==> diff[name] == state[name]
    ensures var (now, news) := Applied(state, diff, table, readings);
            && (forall i :: 0 <= i < |readings| ==>
                  readings[i].0 in now && now[readings[i].0] == Stored(table, readings[i].1))
            && (forall name :: (forall i :: 0 <= i < |readings| ==> readings[i].0 != name) ==>
                  (name in now <==> name in state) && (name in state ==> now[name] == state[name]))
            && (forall name :: name in news <==> name in now && (name !in before || before[name] != now[name]))
            && (forall name :: name in news ==> news[name] == now[name])
    decreases |readings|
  {
    hide Stored, Applied;
    if readings == [] {
      AppliedNothing(state, diff, table);
    } else {
      var x, rest := readings[0], readings[1..];
      assert readings == [x] + rest;
      var v := Stored(table, x.1);
      AppliedStep(state, diff, table, x, rest);
      forall i | 0 <= i < |rest| ensures rest[i] == readings[i + 1] {}
      var same := x.0 in state && state[x.0] == v;
      var state1, diff1 := if same then state else state[x.0 := v], if same then diff else diff[x.0 := v];
      AppliedShows(before, state1, diff1, table, rest);
    }
  }

  /** After onDataWritten every register that the scan of the block reads shows its value and no other
      register has changed; what is sent on is exactly what is new. */
  lemma WrittenShows(d: Device, state: State, block: Unit)
    requires d.Ok()
    ensures var readings := ScanFrom(d, block.table, block.start, block.values, 0).readings;
            var now := Handled(d, state, block);
            && (forall i :: 0 <= i < |readings| ==> Shows(now, readings[i].0, block.table, readings[i].1))
            && (forall name :: (forall i :: 0 <= i < |readings| ==> readings[i].0 != name) ==>
                  (name in now <==> name in state) && (name in state ==> now[name] == state[name]))
    ensures var news := Applied(state, map[], block.table,
                                ScanFrom(d, block.table, block.start, block.values, 0).readings).1;
            var now := Handled(d, state, block);
            && (forall name :: name in news <==> name in now && (name !in state || state[name] != now[name]))
            && (forall name :: name in news ==> news[name] == now[name])
  {
    var readings := ScanFrom(d, block.table, block.start, block.values, 0).readings;
    hide ScanFrom, Applied, Stored, Shows;
    ScanReadsOnce(d, block.table, block.start, block.values, 0);
    AppliedShows(state, state, map[], block.table, readings);
    forall i | 0 <= i < |readings| ensures Shows(Handled(d, state, block), readings[i].0, block.table, readings[i].1) {
      StoredShows(Handled(d, state, block), readings[i].0, block.table, readings[i].1);
    }
  }
}
