/** Coalescing of Modbus data units: appending while scanning, sorting, re-merging a copy into
    the list, and removing the merged units by shifting index. */
module ModbusUnits {
  import opened WordOperations

  /** The four tables of the Modbus data model, and QModbusDataUnit's invalid one. */
  datatype Table = Holding | Discrete | Input | Coils | Invalid

  datatype Unit = Unit(table: Table, start: nat, values: seq<Word>)

  function End(u: Unit): nat { u.start + |u.values| }

  predicate Adjacent(a: Unit, b: Unit) { a.table == b.table && End(a) == b.start }

  function Fuse(a: Unit, b: Unit): Unit { a.(values := a.values + b.values) }

  // ---------- specification of each loop ----------

  /** The first unit at position i or later that u continues, or the length of the list. */
  function Absorber(items: seq<Unit>, u: Unit, i: nat): (k: nat)
    requires i <= |items|
    ensures i <= k <= |items|
    ensures k < |items| ==> Adjacent(items[k], u)
    ensures forall j :: i <= j < k ==> !Adjacent(items[j], u)
    decreases |items| - i
  {
    if i == |items| || Adjacent(items[i], u) then i else Absorber(items, u, i + 1)
  }

  function Absorb(items: seq<Unit>, u: Unit): seq<Unit> {
    var k := Absorber(items, u, 0);
    if k < |items| then items[k := Fuse(items[k], u)] else items
  }

  predicate Absorbs(items: seq<Unit>, u: Unit) { Absorber(items, u, 0) < |items| }

  /** The list for one table after the first n units of src have been looked at. */
  function Collect(src: seq<Unit>, t: Table, n: nat): seq<Unit>
    requires n <= |src|
  {
    if n == 0 then []
    else
      var before := Collect(src, t, n - 1);
      var u := src[n - 1];
      if u.table != t then before
      else if Absorbs(before, u) then Absorb(before, u)
      else before + [u]
  }

  /** std::sort by start address. */
  function InsertSorted(u: Unit, items: seq<Unit>): seq<Unit> {
    if items == [] || u.start <= items[0].start then [u] + items
    else [items[0]] + InsertSorted(u, items[1..])
  }

  function Sorted(items: seq<Unit>): seq<Unit> {
    if items == [] then [] else InsertSorted(items[0], Sorted(items[1..]))
  }

  /** The list, and the positions marked for removal, after n units of its copy have been
      offered to it. */
  function Sweep(items: seq<Unit>, n: nat): (r: (seq<Unit>, seq<nat>))
    requires n <= |items|
  {
    if n == 0 then (items, [])
    else
      var (now, marked) := Sweep(items, n - 1);
      if Absorbs(now, items[n - 1]) then (Absorb(now, items[n - 1]), marked + [n - 1]) else (now, marked)
  }

  predicate Ascending(marked: seq<nat>, bound: nat) {
    && (forall i :: 0 <= i < |marked| ==> marked[i] < bound)
    && (forall i, j :: 0 <= i < j < |marked| ==> marked[i] < marked[j])
  }

  /** removeAt(index - count) for the first n marks. */
  function RemoveShifted(items: seq<Unit>, marked: seq<nat>, n: nat): (r: seq<Unit>)
    requires n <= |marked| && Ascending(marked, |items|)
    ensures |r| == |items| - n
  {
    if n == 0 then items
    else
      var before := RemoveShifted(items, marked, n - 1);
      AscendingGrows(marked, n - 1, |items|);
      var at := marked[n - 1] - (n - 1);
      before[..at] + before[at + 1..]
  }

  lemma {:induction false} AscendingGrows(marked: seq<nat>, i: nat, bound: nat)
    requires i < |marked| && Ascending(marked, bound)
    ensures i <= marked[i] && marked[i] + |marked| - i <= bound
  {
    AscendingFrom(marked, i);
    AscendingTo(marked, i, bound);
  }

  lemma {:induction false} AscendingFrom(marked: seq<nat>, i: nat)
    requires i < |marked| && forall a, b :: 0 <= a < b < |marked| ==> marked[a] < marked[b]
    ensures i <= marked[i]
  {
    if i > 0 { AscendingFrom(marked, i - 1); }
  }

  lemma {:induction false} AscendingTo(marked: seq<nat>, i: nat, bound: nat)
    requires i < |marked| && Ascending(marked, bound)
    ensures marked[i] + |marked| - i <= bound
    decreases |marked| - i
  {
    if i + 1 < |marked| { AscendingTo(marked, i + 1, bound); }
  }

  lemma {:induction false} SweepMarks(items: seq<Unit>, n: nat)
    requires n <= |items|
    ensures |Sweep(items, n).0| == |items| && Ascending(Sweep(items, n).1, n)
  {
    if n > 0 { SweepMarks(items, n - 1); }
  }

  function SortAndMerge(items: seq<Unit>): seq<Unit> {
    var sorted := Sorted(items);
    var (now, marked) := Sweep(sorted, |sorted|);
    SweepMarks(sorted, |sorted|);
    RemoveShifted(now, marked, |marked|)
  }

  function MergeTable(src: seq<Unit>, t: Table): seq<Unit> { SortAndMerge(Collect(src, t, |src|)) }

  /** Modbus::mergeDataUnits. */
  function MergeUnits(src: seq<Unit>): seq<Unit> {
    MergeTable(src, Holding) + MergeTable(src, Discrete) + MergeTable(src, Input) + MergeTable(src, Coils)
  }

  // ---------- the loops themselves ----------

  /** A QList of data units passed by reference. */
  class UnitList {
    var items: seq<Unit>

    constructor ()
      ensures items == []
    {
      items := [];
    }

    /** mergeDataUnit(). */
    method MergeDataUnit(unit: Unit) returns (merged: bool)
      modifies this
      ensures merged == Absorbs(old(items), unit)
      ensures items == Absorb(old(items), unit)
    {
      for i := 0 to |items|
        invariant items == old(items)
        invariant Absorber(items, unit, 0) == Absorber(items, unit, i)
      {
        if Adjacent(items[i], unit) {
          items := items[i := Fuse(items[i], unit)];
          return true;
        }
      }
      return false;
    }

    /** sortAndMergeDataUnits(). */
    method SortAndMergeDataUnits()
      modifies this
      ensures items == SortAndMerge(old(items))
    {
      items := Sorted(items);
      var copy := items;
      var toRemove: seq<nat> := [];
      for count := 0 to |copy|
        invariant (items, toRemove) == Sweep(copy, count)
      {
        var merged := MergeDataUnit(copy[count]);
        if merged { toRemove := toRemove + [count]; }
      }
      SweepMarks(copy, |copy|);
      ghost var swept := items;
      for count := 0 to |toRemove|
        invariant items == RemoveShifted(swept, toRemove, count)
      {
        AscendingGrows(toRemove, count, |swept|);
        var at := toRemove[count] - count;
        items := items[..at] + items[at + 1..];
      }
    }
  }

  method MergeDataUnits(src: seq<Unit>) returns (result: seq<Unit>)
    ensures result == MergeUnits(src)
  {
    var holding := new UnitList();
    var di := new UnitList();
    var input := new UnitList();
    var coils := new UnitList();
    for n := 0 to |src|
      invariant fresh(holding) && fresh(di) && fresh(input) && fresh(coils)
      invariant holding != di && holding != input && holding != coils && di != input && di != coils && input != coils
      invariant holding.items == Collect(src, Holding, n) && di.items == Collect(src, Discrete, n)
      invariant input.items == Collect(src, Input, n) && coils.items == Collect(src, Coils, n)
    {
      var unit := src[n];
      match unit.table
      case Holding =>
        var merged := holding.MergeDataUnit(unit);
        if !merged { holding.items := holding.items + [unit]; }
      case Discrete =>
        var merged := di.MergeDataUnit(unit);
        if !merged { di.items := di.items + [unit]; }
      case Coils =>
        var merged := coils.MergeDataUnit(unit);
        if !merged { coils.items := coils.items + [unit]; }
      case Input =>
        var merged := input.MergeDataUnit(unit);
        if !merged { input.items := input.items + [unit]; }
      case Invalid =>
    }
    holding.SortAndMergeDataUnits();
    di.SortAndMergeDataUnits();
    input.SortAndMergeDataUnits();
    coils.SortAndMergeDataUnits();
    result := holding.items + di.items + input.items + coils.items;
  }
}
