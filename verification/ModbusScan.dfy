/** Registers on the wire: encoding one value, scanning a block of words back into values, and
    the round trip through coalescing. */
module ModbusScan {
  import opened WordOperations
  import opened ModbusUnits
  import opened ModbusMerge

  datatype RegType = UShortType | UIntType | FloatType
  {
    /** QMetaType::sizeOf() / 2. */
    function SizeWords(): nat { if UShortType? then 1 else 2 }
  }

  /** A QVariant held by a register; a float by its 32 bits; a coil by a truth value. */
  datatype RegValue = UShort(n: Word) | UInt(d: nat) | Float(bits: nat) | Flag(on: bool)
  {
    predicate Has(t: RegType) {
      match t
      case UShortType => UShort?
      case UIntType => UInt? && d < 0x1_0000_0000
      case FloatType => Float? && bits < 0x1_0000_0000
    }
  }

  /** Settings::RegisterInfo. */
  datatype RegInfo = RegInfo(table: Table, index: nat, regType: RegType, endianess: PackingMode)

  // ---------- one value ----------

  /** The value's memory read as native 16-bit words, on a host of byte order host. */
  function HostWords(host: Order, v: RegValue): seq<Word> {
    match v
    case UShort(n) => [n]
    case UInt(d) => Halves(host, d)
    case Float(bits) => Halves(host, bits)
    case Flag(on) => []
  }

  function Halves(host: Order, d: nat): seq<Word> {
    var low, high := d % 0x1_0000, d / 0x1_0000 % 0x1_0000;
    if host.LittleEndian? then [low, high] else [high, low]
  }

  function Whole(host: Order, ws: seq<Word>): (d: nat)
    requires |ws| == 2
    ensures d < 0x1_0000_0000
  {
    var low: nat, high: nat := if host.LittleEndian? then ws[0] else ws[1], if host.LittleEndian? then ws[1] else ws[0];
    low + high * 0x1_0000
  }

  function ThisPack(host: Order): PackingMode { PackingMode(BigEndian, host) }

  /** parseValueToDataUnit on a value already of the register's type; any other value gives
      the invalid unit. */
  function EncodeUnit(host: Order, r: RegInfo, v: RegValue): Unit {
    if v.Has(r.regType) then Unit(r.table, r.index, Repacked(HostWords(host, v), ThisPack(host), r.endianess))
    else Unit(Invalid, 0, [])
  }

  /** The bit_cast at the end of parseModbusType. */
  function FromHost(host: Order, t: RegType, ws: seq<Word>): RegValue
    requires |ws| == t.SizeWords()
  {
    match t
    case UShortType => UShort(ws[0])
    case UIntType => UInt(Whole(host, ws))
    case FloatType => Float(Whole(host, ws))
  }

  /** parseModbusType. */
  function DecodeWords(host: Order, r: RegInfo, ws: seq<Word>): RegValue
    requires |ws| == r.regType.SizeWords()
  {
    FromHost(host, r.regType, Repacked(ws, r.endianess, ThisPack(host)))
  }

  lemma HalvesWhole(host: Order, d: nat)
    requires d < 0x1_0000_0000
    ensures |Halves(host, d)| == 2 && Whole(host, Halves(host, d)) == d
  {}

  lemma FromHostWords(host: Order, t: RegType, v: RegValue)
    requires v.Has(t)
    ensures |HostWords(host, v)| == t.SizeWords() && FromHost(host, t, HostWords(host, v)) == v
  {
    hide Halves, Whole;
    match v
    case UInt(d) => HalvesWhole(host, d);
    case Float(bits) => HalvesWhole(host, bits);
    case _ =>
  }

  /** Decoding undoes encoding for every type, value, endianess and host. */
  lemma DecodeEncode(host: Order, r: RegInfo, v: RegValue)
    requires v.Has(r.regType)
    ensures |EncodeUnit(host, r, v).values| == r.regType.SizeWords()
    ensures DecodeWords(host, r, EncodeUnit(host, r, v).values) == v
  {
    hide HostWords, FromHost, Repacked, ThisPack;
    FromHostWords(host, r.regType, v);
    RepackedBack(HostWords(host, v), ThisPack(host), r.endianess);
  }

  function Low(d: nat): Word { d % 0x1_0000 }

  function High(d: nat): Word { d / 0x1_0000 % 0x1_0000 }

  /** A word as it is sent: bytes swapped when the register's byte order is not the host's. */
  function Sent(host: Order, r: RegInfo, w: Word): Word { if r.endianess.bytes != host then FlipBytes(w) else w }

  /** The words of a unit: the high half comes first when the register's word order is the host's
      byte order. */
  lemma WireWords(host: Order, r: RegInfo, v: RegValue)
    requires v.Has(r.regType)
    ensures var ws := EncodeUnit(host, r, v).values;
            match v
            case UShort(n) => ws == [Sent(host, r, n)]
            case UInt(d) => ws == WireHalves(host, r, d)
            case Float(bits) => ws == WireHalves(host, r, bits)
            case Flag(_) => true
  {
    hide FlipBytes;
  }

  function WireHalves(host: Order, r: RegInfo, d: nat): seq<Word> {
    var high, low := Sent(host, r, High(d)), Sent(host, r, Low(d));
    if r.endianess.words == host then [high, low] else [low, high]
  }

  lemma SentBytes(host: Order, r: RegInfo, w: Word)
    ensures BytesOf(host, Sent(host, r, w)) == BytesOf(r.endianess.bytes, w)
  {
    hide FlipBytes, BytesOf;
    FlippedBytes(w);
  }

  /** Word k of the value as numbers: a half, the high one first or second as WireHalves says. */
  function WordOf(host: Order, r: RegInfo, v: RegValue, k: nat): Word {
    match v
    case UShort(n) => n
    case UInt(d) => if (k == 0) == (r.endianess.words == host) then High(d) else Low(d)
    case Float(bits) => if (k == 0) == (r.endianess.words == host) then High(bits) else Low(bits)
    case Flag(_) => 0
  }

  /** Whatever the host, each word of a unit lies in its memory with the bytes in the register's order. */
  lemma WireBytes(host: Order, r: RegInfo, v: RegValue, k: nat)
    requires v.Has(r.regType) && k < r.regType.SizeWords()
    ensures var ws := EncodeUnit(host, r, v).values;
            |ws| == r.regType.SizeWords() && BytesOf(host, ws[k]) == BytesOf(r.endianess.bytes, WordOf(host, r, v, k))
  {
    hide EncodeUnit, Sent, BytesOf, High, Low;
    WireWords(host, r, v);
    SentBytes(host, r, WordOf(host, r, v, k));
  }

  /** The value with its bytes in reverse. */
  function Swapped(v: RegValue): RegValue {
    match v
    case UShort(n) => UShort(FlipBytes(n))
    case UInt(d) => UInt(SwappedBytes(d))
    case Float(bits) => Float(SwappedBytes(bits))
    case Flag(on) => v
  }

  function SwappedBytes(d: nat): nat { (FlipBytes(Low(d)) as int) * 0x1_0000 + FlipBytes(High(d)) }

  /** Words encoded on one host and decoded on another with the same settings give the value back
      exactly when the hosts have one byte order or the value reads the same backwards. */
  lemma AcrossHosts(from: Order, to: Order, r: RegInfo, v: RegValue)
    requires v.Has(r.regType)
    ensures var ws := EncodeUnit(from, r, v).values;
            |ws| == r.regType.SizeWords() && DecodeWords(to, r, ws) == if from == to then v else Swapped(v)
    ensures DecodeWords(to, r, EncodeUnit(from, r, v).values) == v <==> from == to || Swapped(v) == v
  {
    DecodeEncode(from, r, v);
    if from != to {
      FlippedOver(from, to, r, v);
    }
  }

  lemma FlippedOver(from: Order, to: Order, r: RegInfo, v: RegValue)
    requires v.Has(r.regType) && from != to
    ensures |EncodeUnit(from, r, v).values| == r.regType.SizeWords()
    ensures DecodeWords(to, r, EncodeUnit(from, r, v).values) == Swapped(v)
  {
    WireWords(from, r, v);
    var ws := EncodeUnit(from, r, v).values;
    var back := Repacked(ws, r.endianess, ThisPack(to));
    hide EncodeUnit;
    assert CrossRepacked(from, to, r, ws, back, v);
  }

  function FlippedHalves(from: Order, d: nat): seq<Word> {
    var high, low := FlipBytes(High(d)), FlipBytes(Low(d));
    if from == BigEndian then [high, low] else [low, high]
  }

  predicate CrossRepacked(from: Order, to: Order, r: RegInfo, ws: seq<Word>, back: seq<Word>, v: RegValue) {
    match v
    case UShort(n) => back == [FlipBytes(n)]
    case UInt(d) => back == FlippedHalves(from, d)
    case Float(bits) => back == FlippedHalves(from, bits)
    case Flag(_) => true
  }

  // ---------- the scan ----------

  type Registers = map<string, RegInfo>

  /** reverseRegisters: register names by table and index. */
  type Reverse = map<(Table, nat), string>

  ghost predicate Inverse(regs: Registers, rev: Reverse) {
    && (forall name :: name in regs ==>
          (regs[name].table, regs[name].index) in rev && rev[(regs[name].table, regs[name].index)] == name)
    && (forall at :: at in rev ==> rev[at] in regs && (regs[rev[at]].table, regs[rev[at]].index) == at)
  }

  predicate SameIndex(a: RegInfo, b: RegInfo) { a.table == b.table && a.index == b.index }

  /** The collision check of the slave's and the master's constructors: it throws exactly when
      two registers of one table share an index. */
  method BuildReverse(regs: Registers) returns (ok: bool, rev: Reverse)
    ensures ok <==>
            forall a, b :: a in regs && b in regs && SameIndex(regs[a], regs[b]) ==> a == b
    ensures ok ==> Inverse(regs, rev)
  {
    rev := map[];
    var todo := regs.Keys;
    while todo != {}
      invariant todo <= regs.Keys
      invariant forall name :: name in regs && name !in todo ==>
        (regs[name].table, regs[name].index) in rev && rev[(regs[name].table, regs[name].index)] == name
      invariant forall at :: at in rev ==>
        rev[at] in regs && rev[at] !in todo && (regs[rev[at]].table, regs[rev[at]].index) == at
      decreases todo
    {
      var name :| name in todo;
      var at := (regs[name].table, regs[name].index);
      if at in rev { return false, rev; }
      rev := rev[at := name];
      todo := todo - {name};
    }
    ok := true;
  }

  datatype Device = Device(host: Order, regs: Registers, rev: Reverse)
  {
    ghost predicate Ok() { Inverse(regs, rev) }

    predicate Named() { forall at :: at in rev ==> rev[at] in regs }

    function At(table: Table, address: nat): RegInfo
      requires (table, address) in rev && rev[(table, address)] in regs
    {
      regs[rev[(table, address)]]
    }
  }

  type Reading = (string, RegValue)

  /** Coils and discrete inputs are stored as truth values. */
  function Stored(table: Table, v: RegValue): RegValue {
    if table == Coils || table == Discrete then Flag(NonZero(v)) else v
  }

  predicate NonZero(v: RegValue) {
    match v
    case UShort(n) => n != 0
    case UInt(d) => d != 0
    case Float(bits) => bits != 0 && bits != 0x8000_0000
    case Flag(on) => on
  }

  datatype Scan = Scan(readings: seq<Reading>, stuckAt: int)

  /** The readings the loop makes from word i on, and the position at which it meets a
      register longer than what is left of the block, or -1. */
  function ScanFrom(d: Device, table: Table, address: nat, words: seq<Word>, i: nat): Scan
    requires d.Named()
    decreases |words| - i
  {
    if i >= |words| then Scan([], -1)
    else if (table, address + i) !in d.rev then ScanFrom(d, table, address, words, i + 1)
    else
      var r := d.At(table, address + i);
      var n := r.regType.SizeWords();
      if i + n > |words| then Scan([], i)
      else
        var rest := ScanFrom(d, table, address, words, i + n);
        rest.(readings := [(d.rev[(table, address + i)], DecodeWords(d.host, r, words[i..i + n]))] + rest.readings)
  }

  /** One turn of handleNewWords' loop on its index: a register that does not fit leaves the
      index where it is. */
  function Turn(d: Device, table: Table, address: nat, size: nat, i: nat): nat
    requires d.Named()
  {
    if i >= size then i
    else if (table, address + i) !in d.rev then i + 1
    else
      var n := d.At(table, address + i).regType.SizeWords();
      if i + n > size then i else i + n
  }

  function Turns(d: Device, table: Table, address: nat, size: nat, i: nat, count: nat): nat
    requires d.Named()
    decreases count
  {
    if count == 0 then i else Turns(d, table, address, size, Turn(d, table, address, size, i), count - 1)
  }

  lemma {:induction false} StuckForever(d: Device, table: Table, address: nat, size: nat, i: nat, count: nat)
    requires d.Named()
    requires Turn(d, table, address, size, i) == i
    ensures Turns(d, table, address, size, i, count) == i
    decreases count
  {
    if count > 0 { StuckForever(d, table, address, size, i, count - 1); }
  }

  lemma {:induction false} TurnsReach(d: Device, table: Table, address: nat, words: seq<Word>, i: nat)
    returns (count: nat)
    requires d.Named()
    ensures var s := ScanFrom(d, table, address, words, i).stuckAt;
            var e := Turns(d, table, address, |words|, i, count);
            if s == -1 then e >= |words| else e == s < |words| && Turn(d, table, address, |words|, e) == e
    decreases |words| - i
  {
    if i >= |words| || Turn(d, table, address, |words|, i) == i {
      count := 0;
    } else {
      var next := TurnsReach(d, table, address, words, Turn(d, table, address, |words|, i));
      count := next + 1;
    }
  }

  lemma {:induction false} TurnsAdd(d: Device, table: Table, address: nat, size: nat, i: nat, a: nat, b: nat)
    requires d.Named()
    ensures Turns(d, table, address, size, i, a + b) ==
            Turns(d, table, address, size, Turns(d, table, address, size, i, a), b)
    decreases a
  {
    if a > 0 { TurnsAdd(d, table, address, size, Turn(d, table, address, size, i), a - 1, b); }
  }

  /** The loop leaves the block after finitely many turns exactly when the scan meets no register
      that does not fit; otherwise it turns at that register for ever. */
  lemma TurnsEnd(d: Device, table: Table, address: nat, words: seq<Word>)
    requires d.Named()
    ensures (exists count: nat :: Turns(d, table, address, |words|, 0, count) >= |words|) <==>
            ScanFrom(d, table, address, words, 0).stuckAt == -1
  {
    var reach := TurnsReach(d, table, address, words, 0);
    var s := ScanFrom(d, table, address, words, 0).stuckAt;
    if s != -1 {
      forall count: nat ensures Turns(d, table, address, |words|, 0, count) < |words| {
        if count >= reach {
          TurnsAdd(d, table, address, |words|, 0, reach, count - reach);
          StuckForever(d, table, address, |words|, s, count - reach);
        } else {
          TurnsAdd(d, table, address, |words|, 0, count, reach - count);
          TurnsGrow(d, table, address, |words|, Turns(d, table, address, |words|, 0, count), reach - count);
        }
      }
    }
  }

  /** A register of two words starts here. */
  predicate Long(d: Device, table: Table, address: nat)
    requires d.Named()
  {
    (table, address) in d.rev && d.At(table, address).regType.SizeWords() == 2
  }

  /** How many two-word registers start at the k addresses before address + k, without a gap from
      there downwards: each of them lies across the start of the next. */
  function Overlaid(d: Device, table: Table, address: nat, k: nat): nat
    requires d.Named()
  {
    if k == 0 || !Long(d, table, address + k - 1) then 0 else 1 + Overlaid(d, table, address, k - 1)
  }

  /** The last word of the block starts a two-word register that the scan does not step over. */
  predicate Straddled(d: Device, table: Table, address: nat, size: nat)
    requires d.Named()
  {
    size > 0 && Long(d, table, address + size - 1) && Overlaid(d, table, address, size - 1) % 2 == 0
  }

  lemma {:induction false} StuckAtEnd(d: Device, table: Table, address: nat, words: seq<Word>, i: nat)
    requires d.Named() && i <= |words| && Overlaid(d, table, address, i) % 2 == 0
    ensures ScanFrom(d, table, address, words, i).stuckAt == -1 <==> !Straddled(d, table, address, |words|)
    decreases |words| - i
  {
    hide DecodeWords;
    if i < |words| {
      var at := address + i;
      if !Long(d, table, at) {
        assert Overlaid(d, table, address, i + 1) == 0;
        StuckAtEnd(d, table, address, words, i + 1);
      } else if i + 2 <= |words| {
        assert Overlaid(d, table, address, i + 1) == 1 + Overlaid(d, table, address, i);
        StuckAtEnd(d, table, address, words, i + 2);
      }
    }
  }

  /** The slave's loop leaves a block after finitely many turns exactly when the last word of the
      block does not start a two-word register, or that register is stepped over because an odd
      number of two-word registers overlap one another right before it. */
  lemma ScanEnds(d: Device, table: Table, address: nat, words: seq<Word>)
    requires d.Named()
    ensures (exists count: nat :: Turns(d, table, address, |words|, 0, count) >= |words|) <==>
            !Straddled(d, table, address, |words|)
  {
    StuckAtEnd(d, table, address, words, 0);
    TurnsEnd(d, table, address, words);
  }

  /** No register reaches over the start of another one of its table. */
  ghost predicate Disjoint(d: Device)
    requires d.Named()
  {
    forall t: Table, a: nat :: Long(d, t, a) ==> (t, a + 1) !in d.rev
  }

  /** A register that starts at word k of a block ends within it. */
  predicate Fits(d: Device, table: Table, address: nat, size: nat, k: nat)
    requires d.Named()
  {
    (table, address + k) in d.rev ==> k + d.At(table, address + k).regType.SizeWords() <= size
  }

  /** Without overlapping registers the loop ends exactly when every register that starts in the
      block ends in it. */
  lemma ScanEndsDisjoint(d: Device, table: Table, address: nat, words: seq<Word>)
    requires d.Named() && Disjoint(d)
    ensures (exists count: nat :: Turns(d, table, address, |words|, 0, count) >= |words|) <==>
            forall k: nat :: k < |words| ==> Fits(d, table, address, |words|, k)
  {
    ScanEnds(d, table, address, words);
    var size := |words|;
    if Straddled(d, table, address, size) {
      assert !Fits(d, table, address, size, size - 1);
    } else if size > 1 {
      assert Long(d, table, address + size - 2) ==> (table, address + size - 2 + 1) !in d.rev;
    }
  }

  const HALF_REGISTER := RegInfo(Holding, 0, UIntType, PackingMode(BigEndian, BigEndian))

  const HALF_WRITTEN := Device(LittleEndian, map["r" := HALF_REGISTER], map[(Holding, 0) := "r"])

  /** A device with one two-word register, and a write of its first word: the loop never moves. */
  lemma HalfWriteHangs(w: Word, count: nat)
    ensures HALF_WRITTEN.Ok() && HALF_WRITTEN.Named()
    ensures Turns(HALF_WRITTEN, Holding, 0, |[w]|, 0, count) == 0
  {
    StuckForever(HALF_WRITTEN, Holding, 0, |[w]|, 0, count);
  }

  lemma {:induction false} TurnsGrow(d: Device, table: Table, address: nat, size: nat, i: nat, count: nat)
    requires d.Named()
    ensures Turns(d, table, address, size, i, count) >= i
    decreases count
  {
    if count > 0 { TurnsGrow(d, table, address, size, Turn(d, table, address, size, i), count - 1); }
  }

  /** The readings of the first count turns. */
  function Gathered(d: Device, table: Table, address: nat, words: seq<Word>, i: nat, count: nat): seq<Reading>
    requires d.Named()
    decreases count
  {
    if count == 0 || i >= |words| then []
    else if (table, address + i) !in d.rev then Gathered(d, table, address, words, i + 1, count - 1)
    else
      var r := d.At(table, address + i);
      var n := r.regType.SizeWords();
      if i + n > |words| then Gathered(d, table, address, words, i, count - 1)
      else
        [(d.rev[(table, address + i)], DecodeWords(d.host, r, words[i..i + n]))] +
        Gathered(d, table, address, words, i + n, count - 1)
  }

  /** One turn, seen from the word it is made at. */
  lemma GatheredStep(d: Device, table: Table, address: nat, words: seq<Word>, i: nat, count: nat)
    requires d.Named() && count > 0 && i < |words|
    ensures Turns(d, table, address, |words|, i, count) ==
            Turns(d, table, address, |words|, Turn(d, table, address, |words|, i), count - 1)
    ensures var rest := Gathered(d, table, address, words, Turn(d, table, address, |words|, i), count - 1);
            Gathered(d, table, address, words, i, count) ==
            if (table, address + i) in d.rev && i + d.At(table, address + i).regType.SizeWords() <= |words| then
              [ReadingAt(d, table, address, words, i)] + rest
            else rest
  {}

  function ReadingAt(d: Device, table: Table, address: nat, words: seq<Word>, i: nat): Reading
    requires d.Named() && (table, address + i) in d.rev
    requires i + d.At(table, address + i).regType.SizeWords() <= |words|
  {
    var r := d.At(table, address + i);
    (d.rev[(table, address + i)], DecodeWords(d.host, r, words[i..i + r.regType.SizeWords()]))
  }

  lemma AtLast(d: Device, table: Table, address: nat, words: seq<Word>, i: nat)
    requires d.Named()
    ensures Turns(d, table, address, |words|, i, 0) == i && Gathered(d, table, address, words, i, 0) == []
  {}

  lemma Outside(d: Device, table: Table, address: nat, words: seq<Word>, i: nat, count: nat)
    requires d.Named() && i >= |words| && count > 0
    ensures Turns(d, table, address, |words|, i, count) == Turns(d, table, address, |words|, i, count - 1)
    ensures Gathered(d, table, address, words, i, count) == Gathered(d, table, address, words, i, count - 1)
  {}

  lemma {:induction false} NothingMore(d: Device, table: Table, address: nat, words: seq<Word>, i: nat, count: nat)
    requires d.Named() && Turn(d, table, address, |words|, i) == i
    ensures Gathered(d, table, address, words, i, count) == []
    decreases count
  {
    if count > 0 { NothingMore(d, table, address, words, i, count - 1); }
  }

  /** As many turns as the block has words make all the readings of the scan, and leave the block
      unless it is straddled. */
  lemma {:induction false} EnoughTurns(d: Device, table: Table, address: nat, words: seq<Word>, i: nat, count: nat)
    requires d.Named() && i <= |words| <= i + count
    ensures Gathered(d, table, address, words, i, count) == ScanFrom(d, table, address, words, i).readings
    ensures Turns(d, table, address, |words|, i, count) >= |words| <==>
            ScanFrom(d, table, address, words, i).stuckAt == -1
    decreases count
  {
    hide DecodeWords;
    var next := Turn(d, table, address, |words|, i);
    if next == i {
      NothingMore(d, table, address, words, i, count);
      StuckForever(d, table, address, |words|, i, count);
    } else {
      EnoughTurns(d, table, address, words, next, count - 1);
    }
  }

  // ---------- the loops as methods ----------

  /** parseModbusType, which reorders the words it is given in place. */
  method ParseModbusType(words: array<Word>, off: nat, r: RegInfo, host: Order) returns (v: RegValue)
    requires off + r.regType.SizeWords() <= words.Length
    modifies words
    ensures v == DecodeWords(host, r, old(words[..])[off..off + r.regType.SizeWords()])
    ensures forall k :: 0 <= k < off || off + r.regType.SizeWords() <= k < words.Length ==> words[k] == old(words[k])
  {
    var n := r.regType.SizeWords();
    ghost var part := Repacked(words[..][off..off + n], r.endianess, ThisPack(host));
    ghost var before := words[..];
    ApplyEndianess(words, off, n, r.endianess, ThisPack(host));
    assert words[..] == before[..off] + part + before[off + n..];
    assert words[off..off + n] == words[..][off..off + n] == part;
    v := FromHost(host, r.regType, words[off..off + n]);
    forall k | 0 <= k < off || off + n <= k < words.Length ensures words[k] == before[k] {
      assert words[k] == words[..][k];
    }
  }

  /** The state and the outgoing difference after a list of readings. */
  function Applied(state: map<string, RegValue>, diff: map<string, RegValue>, table: Table, readings: seq<Reading>)
    : (map<string, RegValue>, map<string, RegValue>)
    decreases |readings|
  {
    if readings == [] then (state, diff)
    else
      var (name, raw) := readings[0];
      var v := Stored(table, raw);
      if name in state && state[name] == v then Applied(state, diff, table, readings[1..])
      else Applied(state[name := v], diff[name := v], table, readings[1..])
  }

  lemma AppliedNothing(state: map<string, RegValue>, diff: map<string, RegValue>, table: Table)
    ensures Applied(state, diff, table, []) == (state, diff)
  {}

  lemma AppliedStep(state: map<string, RegValue>, diff: map<string, RegValue>, table: Table, first: Reading,
                    rest: seq<Reading>)
    ensures var (name, v) := (first.0, Stored(table, first.1));
            Applied(state, diff, table, [first] + rest) ==
            if name in state && state[name] == v then Applied(state, diff, table, rest)
            else Applied(state[name := v], diff[name := v], table, rest)
  {
    assert ([first] + rest)[1..] == rest;
  }

  class Slave {
    const device: Device
    var state: map<string, RegValue>

    constructor (device: Device)
      ensures this.device == device && state == map[]
    {
      this.device := device;
      state := map[];
    }

    /** handleNewWords, seen after the given number of turns of its loop; ended tells whether the
        loop has left the block by then. */
    method HandleNewWords(words: array<Word>, table: Table, address: nat, turns: nat)
      returns (ended: bool, diff: map<string, RegValue>)
      requires device.Ok()
      modifies this, words
      ensures ended <==> Turns(device, table, address, words.Length, 0, turns) >= words.Length
      ensures (state, diff) ==
              Applied(old(state), map[], table, Gathered(device, table, address, old(words[..]), 0, turns))
    {
      hide DecodeWords, Gathered, Turns, Applied, Stored;
      ghost var block := words[..];
      ghost var goal := Applied(state, map[], table, Gathered(device, table, address, block, 0, turns));
      diff := map[];
      var i := 0;
      for turn := 0 to turns
        invariant 0 <= i
        invariant forall k :: i <= k < words.Length ==> words[k] == block[k]
        invariant Turns(device, table, address, words.Length, i, turns - turn) ==
                  Turns(device, table, address, words.Length, 0, turns)
        invariant Applied(state, diff, table, Gathered(device, table, address, block, i, turns - turn)) == goal
      {
        if i >= words.Length {
          Outside(device, table, address, block, i, turns - turn);
          continue;
        }
        GatheredStep(device, table, address, block, i, turns - turn);
        if (table, address + i) !in device.rev {
          i := i + 1;
          continue;
        }
        var regString := device.rev[(table, address + i)];
        var regInfo := device.regs[regString];
        var sizeWords := regInfo.regType.SizeWords();
        if i + sizeWords > words.Length { continue; }
        SameSlice(words[..], block, i, sizeWords);
        var result := ParseModbusType(words, i, regInfo, device.host);
        AppliedStep(state, diff, table, (regString, result),
                    Gathered(device, table, address, block, i + sizeWords, turns - turn - 1));
        i := i + sizeWords;
        var newValue := Stored(table, result);
        if !(regString in state && state[regString] == newValue) {
          diff := diff[regString := newValue];
          state := state[regString := newValue];
        }
      }
      AtLast(device, table, address, block, i);
      AppliedNothing(state, diff, table);
      ended := i >= words.Length;
    }

    /** onDataWritten, with the words read back from the device: false when its loop never ends. */
    method OnDataWritten(block: Unit) returns (ended: bool)
      requires device.Ok()
      modifies this
      ensures ended <==> !Straddled(device, block.table, block.start, |block.values|)
      ensures ended ==> state == Handled(device, old(state), block)
    {
      hide DecodeWords;
      var words := new Word[|block.values|](i requires 0 <= i < |block.values| => block.values[i]);
      assert words[..] == block.values;
      var diff;
      ended, diff := HandleNewWords(words, block.table, block.start, |block.values|);
      EnoughTurns(device, block.table, block.start, block.values, 0, |block.values|);
      StuckAtEnd(device, block.table, block.start, block.values, 0);
    }
  }

  /** The slave's state after it has handled a block. */
  function Handled(d: Device, state: map<string, RegValue>, block: Unit): map<string, RegValue>
    requires d.Named()
  {
    Applied(state, map[], block.table, ScanFrom(d, block.table, block.start, block.values, 0).readings).0
  }

  lemma ScanUnfold(d: Device, table: Table, address: nat, words: seq<Word>, i: nat)
    requires d.Named()
    ensures var readings := ScanFrom(d, table, address, words, i).readings;
            readings ==
            if i >= |words| then []
            else if (table, address + i) !in d.rev then ScanFrom(d, table, address, words, i + 1).readings
            else if i + d.At(table, address + i).regType.SizeWords() > |words| then []
            else
              [ReadingAt(d, table, address, words, i)] +
              ScanFrom(d, table, address, words, i + d.At(table, address + i).regType.SizeWords()).readings
  {}

  lemma SameSlice<T>(now: seq<T>, block: seq<T>, i: nat, n: nat)
    requires |now| == |block| && i + n <= |now| && forall k :: i <= k < i + n ==> now[k] == block[k]
    ensures now[i..i + n] == block[i..i + n]
  {}

  lemma Shifted<T>(a: seq<T>, x: T, b: seq<T>)
    ensures a + ([x] + b) == (a + [x]) + b && a + [] == a
  {}

  /** The decode loop of Master::onReadReady, which gives up at a register that does not fit. */
  method DecodeReply(d: Device, words: array<Word>, table: Table, address: nat) returns (result: seq<Reading>)
    requires d.Ok()
    modifies words
    ensures result == ScanFrom(d, table, address, old(words[..]), 0).readings
  {
    hide DecodeWords, ScanFrom;
    ghost var block := words[..];
    result := [];
    var i := 0;
    while i < words.Length
      invariant forall k :: i <= k < words.Length ==> words[k] == block[k]
      invariant result + ScanFrom(d, table, address, block, i).readings ==
                ScanFrom(d, table, address, block, 0).readings
      decreases words.Length - i
    {
      ScanUnfold(d, table, address, block, i);
      if (table, address + i) !in d.rev {
        i := i + 1;
        continue;
      }
      var name := d.rev[(table, address + i)];
      var regData := d.regs[name];
      var sizeWords := regData.regType.SizeWords();
      if i + sizeWords > words.Length {
        Shifted(result, (name, Flag(false)), []);
        return;
      }
      SameSlice(words[..], block, i, sizeWords);
      var v := ParseModbusType(words, i, regData, d.host);
      Shifted(result, (name, v), ScanFrom(d, table, address, block, i + sizeWords).readings);
      result := result + [(name, v)];
      i := i + sizeWords;
    }
    ScanUnfold(d, table, address, block, i);
    Shifted(result, ("", Flag(false)), []);
  }

  // ---------- the round trip ----------

  /** The values are registers laid end to end. */
  ghost predicate TiledFrom(d: Device, table: Table, start: nat, values: seq<Word>)
    requires d.Named()
    decreases |values|
  {
    values == [] ||
    ((table, start) in d.rev &&
     var n := d.At(table, start).regType.SizeWords();
     n <= |values| && TiledFrom(d, table, start + n, values[n..]))
  }

  ghost function TileReadings(d: Device, table: Table, start: nat, values: seq<Word>): seq<Reading>
    requires d.Named()
    requires TiledFrom(d, table, start, values)
    decreases |values|
  {
    if values == [] then []
    else
      var r := d.At(table, start);
      var n := r.regType.SizeWords();
      [(d.rev[(table, start)], DecodeWords(d.host, r, values[..n]))] + TileReadings(d, table, start + n, values[n..])
  }

  /** The words at start hold a whole register, and the rest of values is tiled. */
  ghost predicate FirstTile(d: Device, table: Table, start: nat, values: seq<Word>, n: nat)
    requires d.Named()
  {
    (table, start) in d.rev && n == d.At(table, start).regType.SizeWords() && n <= |values|
  }

  ghost function TileReading(d: Device, table: Table, start: nat, first: seq<Word>): Reading
    requires d.Named() && FirstTile(d, table, start, first, |first|)
  {
    (d.rev[(table, start)], DecodeWords(d.host, d.At(table, start), first))
  }

  lemma TileStep(d: Device, table: Table, start: nat, values: seq<Word>) returns (n: nat)
    requires d.Named() && values != [] && TiledFrom(d, table, start, values)
    ensures FirstTile(d, table, start, values, n) && 0 < n <= |values| && TiledFrom(d, table, start + n, values[n..])
    ensures FirstTile(d, table, start, values[..n], n)
    ensures TileReadings(d, table, start, values) ==
            [TileReading(d, table, start, values[..n])] + TileReadings(d, table, start + n, values[n..])
  {
    n := d.At(table, start).regType.SizeWords();
  }

  lemma TileFold(d: Device, table: Table, start: nat, values: seq<Word>, n: nat, first: seq<Word>, rest: seq<Word>)
    requires d.Named() && n > 0 && FirstTile(d, table, start, values, n)
    requires first == values[..n] && rest == values[n..] && TiledFrom(d, table, start + n, rest)
    ensures TiledFrom(d, table, start, values)
    ensures TileReadings(d, table, start, values) ==
            [TileReading(d, table, start, first)] + TileReadings(d, table, start + n, rest)
  {}

  lemma ScanStep(d: Device, table: Table, address: nat, words: seq<Word>, i: nat, n: nat, first: seq<Word>,
                 readings: seq<Reading>)
    requires d.Named() && n > 0 && i + n <= |words| && first == words[i..i + n]
    requires FirstTile(d, table, address + i, first, n)
    requires ScanFrom(d, table, address, words, i + n) == Scan(readings, -1)
    ensures ScanFrom(d, table, address, words, i) == Scan([TileReading(d, table, address + i, first)] + readings, -1)
  {}

  lemma ScanNothing(d: Device, table: Table, address: nat, words: seq<Word>, i: nat)
    requires d.Named() && i == |words|
    requires TiledFrom(d, table, address + i, words[i..])
    ensures ScanFrom(d, table, address, words, i) == Scan(TileReadings(d, table, address + i, words[i..]), -1)
  {}

  lemma TilesNothing(d: Device, table: Table, start: nat, a: seq<Word>, b: seq<Word>)
    requires d.Named() && a == [] && TiledFrom(d, table, start, a) && TiledFrom(d, table, start, b)
    ensures TiledFrom(d, table, start, a + b)
    ensures TileReadings(d, table, start, a + b) == TileReadings(d, table, start, a) + TileReadings(d, table, start, b)
  {
    assert a + b == b;
  }

  lemma Recut<T>(words: seq<T>, i: nat, n: nat)
    requires i + n <= |words|
    ensures words[i..][n..] == words[i + n..] && words[i..][..n] == words[i..i + n]
  {}

  lemma CutConcat<T>(a: seq<T>, b: seq<T>, n: nat)
    requires n <= |a|
    ensures (a + b)[n..] == a[n..] + b && (a + b)[..n] == a[..n]
  {}

  /** A scan of tiled words ends and reads exactly the tiles: it never splits a register. */
  lemma {:induction false} ScanTiles(d: Device, table: Table, address: nat, words: seq<Word>, i: nat)
    requires d.Named()
    requires i <= |words| && TiledFrom(d, table, address + i, words[i..])
    ensures ScanFrom(d, table, address, words, i) == Scan(TileReadings(d, table, address + i, words[i..]), -1)
    decreases |words| - i
  {
    hide *;
    if i == |words| {
      ScanNothing(d, table, address, words, i);
    } else {
      var n := TileStep(d, table, address + i, words[i..]);
      Recut(words, i, n);
      ScanTiles(d, table, address, words, i + n);
      ScanStep(d, table, address, words, i, n, words[i..i + n],
               TileReadings(d, table, address + (i + n), words[i + n..]));
    }
  }

  /** Registers laid end to end stay so, and read the same, when two runs of them meet. */
  lemma {:induction false} TilesConcat(d: Device, table: Table, start: nat, a: seq<Word>, b: seq<Word>)
    requires d.Named()
    requires TiledFrom(d, table, start, a) && TiledFrom(d, table, start + |a|, b)
    ensures TiledFrom(d, table, start, a + b)
    ensures TileReadings(d, table, start, a + b) ==
            TileReadings(d, table, start, a) + TileReadings(d, table, start + |a|, b)
    decreases |a|
  {
    hide *;
    if a == [] {
      TilesNothing(d, table, start, a, b);
    } else {
      var n := TileStep(d, table, start, a);
      CutConcat(a, b, n);
      TilesConcat(d, table, start + n, a[n..], b);
      TileFold(d, table, start, a + b, n, a[..n], a[n..] + b);
    }
  }

  ghost predicate Tiled(d: Device, u: Unit)
    requires d.Named()
  {
    TiledFrom(d, u.table, u.start, u.values)
  }

  /** What a scan of unit u reads. */
  ghost function Readings(d: Device, u: Unit): multiset<Reading>
    requires d.Named()
  {
    multiset(ScanFrom(d, u.table, u.start, u.values, 0).readings)
  }

  ghost function Reader(d: Device): Unit -> multiset<Reading>
    requires d.Named()
  {
    u => Readings(d, u)
  }

  lemma TiledReadings(d: Device, u: Unit)
    requires d.Ok() && Tiled(d, u)
    ensures ScanFrom(d, u.table, u.start, u.values, 0).stuckAt == -1
    ensures Readings(d, u) == multiset(TileReadings(d, u.table, u.start, u.values))
  {
    assert u.values[0..] == u.values;
    ScanTiles(d, u.table, u.start, u.values, 0);
  }

  lemma FusedReadings(d: Device, a: Unit, b: Unit)
    requires d.Ok() && Tiled(d, a) && Tiled(d, b) && Adjacent(a, b)
    ensures Tiled(d, Fuse(a, b)) && Readings(d, Fuse(a, b)) == Readings(d, a) + Readings(d, b)
  {
    TilesConcat(d, a.table, a.start, a.values, b.values);
    TiledReadings(d, a);
    TiledReadings(d, b);
    TiledReadings(d, Fuse(a, b));
  }

  /** Values given to registers of the device, each register at most once. */
  ghost predicate Assignment(d: Device, vals: seq<Reading>) {
    && (forall i :: 0 <= i < |vals| ==>
          vals[i].0 in d.regs && d.regs[vals[i].0].table != Invalid && vals[i].1.Has(d.regs[vals[i].0].regType))
    && (forall i, j :: 0 <= i < j < |vals| ==> vals[i].0 != vals[j].0)
  }

  /** The units onMsg builds from a message. */
  function Encoded(d: Device, vals: seq<Reading>): (units: seq<Unit>)
    requires forall i :: 0 <= i < |vals| ==> vals[i].0 in d.regs
    ensures |units| == |vals|
    ensures forall i :: 0 <= i < |vals| ==> units[i] == EncodeUnit(d.host, d.regs[vals[i].0], vals[i].1)
  {
    seq(|vals|, i requires 0 <= i < |vals| => EncodeUnit(d.host, d.regs[vals[i].0], vals[i].1))
  }

  lemma OneReading(d: Device, name: string, v: RegValue)
    requires d.Ok() && name in d.regs && v.Has(d.regs[name].regType)
    ensures var u := EncodeUnit(d.host, d.regs[name], v);
            Tiled(d, u) && u.values != [] && Readings(d, u) == multiset{(name, v)}
  {
    var r := d.regs[name];
    var u := EncodeUnit(d.host, r, v);
    DecodeEncode(d.host, r, v);
    var n := r.regType.SizeWords();
    assert u.values[n..] == [] && u.values[..n] == u.values;
    assert TileReadings(d, u.table, u.start, u.values) == [(name, v)];
    TiledReadings(d, u);
  }

  lemma EncodedNothing(d: Device)
    requires d.Ok()
    ensures Encoded(d, []) == [] && Sum(Reader(d), []) == multiset([])
  {}

  lemma EncodedStep(d: Device, vals: seq<Reading>) returns (u: Unit)
    requires d.Ok() && Assignment(d, vals) && vals != []
    ensures Assignment(d, vals[1..]) && Encoded(d, vals) == [u] + Encoded(d, vals[1..]) &&
            Readings(d, u) == multiset{vals[0]}
  {
    u := EncodeUnit(d.host, d.regs[vals[0].0], vals[0].1);
    OneReading(d, vals[0].0, vals[0].1);
    hide ScanFrom, Readings, Tiled, EncodeUnit;
  }

  lemma MultisetCons<T>(s: seq<T>)
    requires s != []
    ensures multiset(s) == multiset{s[0]} + multiset(s[1..])
  {
    assert s == [s[0]] + s[1..];
  }

  lemma {:induction false} EncodedReadings(d: Device, vals: seq<Reading>)
    requires d.Ok() && Assignment(d, vals)
    ensures Sum(Reader(d), Encoded(d, vals)) == multiset(vals)
  {
    hide ScanFrom, Readings, Tiled, EncodeUnit, Encoded, Sum;
    if vals == [] {
      EncodedNothing(d);
    } else {
      var u := EncodedStep(d, vals);
      EncodedReadings(d, vals[1..]);
      SumCons(Reader(d), u, Encoded(d, vals[1..]));
      MultisetCons(vals);
    }
  }

  lemma EncodedDistinct(d: Device, vals: seq<Reading>)
    requires d.Ok() && Assignment(d, vals)
    ensures DistinctStarts(Encoded(d, vals)) && NonEmpty(Encoded(d, vals))
    ensures forall i :: 0 <= i < |vals| ==> Encoded(d, vals)[i].table != Invalid && Tiled(d, Encoded(d, vals)[i])
  {
    forall i | 0 <= i < |vals|
      ensures Encoded(d, vals)[i].values != [] && Encoded(d, vals)[i].table != Invalid && Tiled(d, Encoded(d, vals)[i])
    {
      OneReading(d, vals[i].0, vals[i].1);
    }
  }

  /** Encode, coalesce, scan: every scan of every coalesced unit ends, and together they read
      back exactly the values that were encoded. */
  lemma EncodeMergeScan(d: Device, vals: seq<Reading>)
    requires d.Ok() && Assignment(d, vals)
    ensures forall u :: u in MergeUnits(Encoded(d, vals)) ==> ScanFrom(d, u.table, u.start, u.values, 0).stuckAt == -1
    ensures Sum(Reader(d), MergeUnits(Encoded(d, vals))) == multiset(vals)
  {
    var units := Encoded(d, vals);
    var ok := (u: Unit) => Tiled(d, u);
    var f := Reader(d);
    hide MergeUnits, Encoded, Readings, Tiled, Assignment, DistinctStarts, NonEmpty, InTable, Sum, ScanFrom, Inverse;
    EncodedDistinct(d, vals);
    EncodedReadings(d, vals);
    assert Additive(ok, f) by {
      forall a, b | ok(a) && ok(b) && Adjacent(a, b) ensures ok(Fuse(a, b)) && f(Fuse(a, b)) == f(a) + f(b) {
        FusedReadings(d, a, b);
      }
    }
    MergeConserves(ok, f, units);
    TablesPartition(f, units);
    var merged := MergeUnits(units);
    forall u | u in merged ensures ScanFrom(d, u.table, u.start, u.values, 0).stuckAt == -1 {
      var i :| 0 <= i < |merged| && merged[i] == u;
      assert ok(merged[i]);
      TiledReadings(d, u);
    }
  }
}
