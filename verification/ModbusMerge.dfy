/** What coalescing preserves: every additive measure of the units, cells among them; and the
    canonical form it reaches. */
module ModbusMerge {
  import opened WordOperations
  import opened ModbusUnits

  // ---------- additive measures ----------

  /** f adds up when two adjacent units with property ok are fused, and ok survives the fusion. */
  ghost predicate Additive<X(!new)>(ok: Unit -> bool, f: Unit -> multiset<X>) {
    forall a, b :: ok(a) && ok(b) && Adjacent(a, b) ==> ok(Fuse(a, b)) && f(Fuse(a, b)) == f(a) + f(b)
  }

  ghost function Sum<X(!new)>(f: Unit -> multiset<X>, items: seq<Unit>): multiset<X> {
    if items == [] then multiset{} else f(items[0]) + Sum(f, items[1..])
  }

  ghost predicate All(ok: Unit -> bool, items: seq<Unit>) { forall i :: 0 <= i < |items| ==> ok(items[i]) }

  lemma {:induction false} SumConcat<X(!new)>(f: Unit -> multiset<X>, a: seq<Unit>, b: seq<Unit>)
    ensures Sum(f, a + b) == Sum(f, a) + Sum(f, b)
  {
    if a == [] {
      assert a + b == b;
    } else {
      SumConcat(f, a[1..], b);
      assert (a + b)[1..] == a[1..] + b;
    }
  }

  lemma SumOne<X(!new)>(f: Unit -> multiset<X>, u: Unit)
    ensures Sum(f, [u]) == f(u)
  {
    assert [u][1..] == [];
  }

  lemma SumCons<X(!new)>(f: Unit -> multiset<X>, u: Unit, items: seq<Unit>)
    ensures Sum(f, [u] + items) == f(u) + Sum(f, items)
  {
    assert ([u] + items)[1..] == items;
  }

  lemma CutAt<T>(items: seq<T>, k: nat)
    requires k < |items|
    ensures items == items[..k] + ([items[k]] + items[k + 1..])
  {}

  lemma SumAt<X(!new)>(f: Unit -> multiset<X>, items: seq<Unit>, k: nat)
    requires k < |items|
    ensures Sum(f, items) == Sum(f, items[..k]) + f(items[k]) + Sum(f, items[k + 1..])
  {
    hide Sum;
    CutAt(items, k);
    SumConcat(f, items[..k], [items[k]] + items[k + 1..]);
    SumCons(f, items[k], items[k + 1..]);
  }

  lemma AbsorbSum<X(!new)>(ok: Unit -> bool, f: Unit -> multiset<X>, items: seq<Unit>, u: Unit)
    requires Additive(ok, f) && All(ok, items) && ok(u) && Absorbs(items, u)
    ensures All(ok, Absorb(items, u)) && Sum(f, Absorb(items, u)) == Sum(f, items) + f(u)
  {
    var k := Absorber(items, u, 0);
    var r := Absorb(items, u);
    SumAt(f, items, k);
    SumAt(f, r, k);
    assert r[..k] == items[..k] && r[k + 1..] == items[k + 1..];
  }

  /** The units of src in table t. */
  function InTable(src: seq<Unit>, t: Table): seq<Unit> {
    if src == [] then [] else (if src[0].table == t then [src[0]] else []) + InTable(src[1..], t)
  }

  lemma {:induction false} InTableSnoc(src: seq<Unit>, u: Unit, t: Table)
    ensures InTable(src + [u], t) == InTable(src, t) + (if u.table == t then [u] else [])
  {
    if src == [] {
      assert (src + [u])[1..] == [];
    } else {
      InTableSnoc(src[1..], u, t);
      assert (src + [u])[1..] == src[1..] + [u];
    }
  }

  lemma CollectNothing<X(!new)>(ok: Unit -> bool, f: Unit -> multiset<X>, src: seq<Unit>, t: Table)
    ensures All(ok, Collect(src, t, 0)) && Sum(f, Collect(src, t, 0)) == Sum(f, InTable(src[..0], t))
  {}

  lemma CollectStep(src: seq<Unit>, t: Table, n: nat)
    requires 0 < n <= |src|
    ensures var before, u := Collect(src, t, n - 1), src[n - 1];
            Collect(src, t, n) ==
            if u.table != t then before else if Absorbs(before, u) then Absorb(before, u) else before + [u]
    ensures InTable(src[..n], t) == InTable(src[..n - 1], t) + (if src[n - 1].table == t then [src[n - 1]] else [])
  {
    assert src[..n] == src[..n - 1] + [src[n - 1]];
    InTableSnoc(src[..n - 1], src[n - 1], t);
  }

  lemma SumNil<X(!new)>(f: Unit -> multiset<X>, items: seq<Unit>)
    ensures Sum(f, items + []) == Sum(f, items)
  {
    assert items + [] == items;
  }

  lemma {:induction false} CollectSum<X(!new)>(ok: Unit -> bool, f: Unit -> multiset<X>, src: seq<Unit>,
                                                   t: Table, n: nat)
    requires n <= |src| && Additive(ok, f) && All(ok, src)
    ensures All(ok, Collect(src, t, n)) && Sum(f, Collect(src, t, n)) == Sum(f, InTable(src[..n], t))
  {
    hide Sum, InTable, Collect, Absorb, Absorbs, Additive;
    if n == 0 {
      CollectNothing(ok, f, src, t);
    } else {
      CollectSum(ok, f, src, t, n - 1);
      CollectStep(src, t, n);
      var before, u, tabled := Collect(src, t, n - 1), src[n - 1], InTable(src[..n - 1], t);
      if u.table != t {
        SumNil(f, tabled);
      } else {
        SumConcat(f, tabled, [u]);
        SumOne(f, u);
        if Absorbs(before, u) { AbsorbSum(ok, f, before, u); } else { SumConcat(f, before, [u]); }
      }
    }
  }

  lemma {:induction false} InsertSum<X(!new)>(ok: Unit -> bool, f: Unit -> multiset<X>, u: Unit, items: seq<Unit>)
    requires ok(u) && All(ok, items)
    ensures All(ok, InsertSorted(u, items)) && Sum(f, InsertSorted(u, items)) == f(u) + Sum(f, items)
  {
    if items == [] || u.start <= items[0].start {
      assert ([u] + items)[1..] == items;
    } else {
      InsertSum(ok, f, u, items[1..]);
      assert InsertSorted(u, items)[1..] == InsertSorted(u, items[1..]);
    }
  }

  lemma {:induction false} SortedSum<X(!new)>(ok: Unit -> bool, f: Unit -> multiset<X>, items: seq<Unit>)
    requires All(ok, items)
    ensures All(ok, Sorted(items)) && Sum(f, Sorted(items)) == Sum(f, items)
  {
    if items != [] {
      SortedSum(ok, f, items[1..]);
      InsertSum(ok, f, items[0], Sorted(items[1..]));
    }
  }

  // ---------- the sweep ----------

  ghost predicate Rising(items: seq<Unit>) {
    forall i, j :: 0 <= i < j < |items| ==> items[i].start < items[j].start
  }

  ghost predicate OneTable(items: seq<Unit>, t: Table) {
    forall i :: 0 <= i < |items| ==> items[i].table == t && items[i].values != []
  }

  /** Whether an unmarked unit before r ends where unit r ends. */
  ghost predicate Shadowed(now: seq<Unit>, marked: seq<nat>, r: nat, h: nat) {
    h < r < |now| && h !in marked && End(now[h]) == End(now[r])
  }

  /** Starts and tables never change, units not yet offered are as they were. */
  ghost predicate Unmoved(items: seq<Unit>, n: nat, now: seq<Unit>) {
    && |now| == |items| && n <= |items|
    && (forall i :: 0 <= i < |now| ==>
          now[i].start == items[i].start && now[i].table == items[i].table && now[i].values != [])
    && (forall i :: n <= i < |now| ==> now[i] == items[i])
  }

  /** A marked unit is as it was, and either shadowed or past use. */
  ghost predicate MarkOk(items: seq<Unit>, n: nat, now: seq<Unit>, marked: seq<nat>, r: nat) {
    && r < |items| && |now| == |items| && now[r] == items[r]
    && ((exists h :: Shadowed(now, marked, r, h)) || (forall i :: n <= i < |items| ==> items[i].start != End(items[r])))
  }

  ghost predicate MarksOk(items: seq<Unit>, n: nat, now: seq<Unit>, marked: seq<nat>) {
    forall j :: 0 <= j < |marked| ==> MarkOk(items, n, now, marked, marked[j])
  }

  /** No unit ends where an offered and unmarked one starts. */
  ghost predicate NoneMeet(n: nat, now: seq<Unit>, marked: seq<nat>)
    requires n <= |now|
  {
    forall v, i :: 0 <= v < n && v !in marked && 0 <= i < |now| ==> End(now[i]) != now[v].start
  }

  /** The state after n units of the copy have been offered. */
  ghost predicate SweepInv(items: seq<Unit>, n: nat, now: seq<Unit>, marked: seq<nat>) {
    Unmoved(items, n, now) && Ascending(marked, n) && MarksOk(items, n, now, marked) && NoneMeet(n, now, marked)
  }

  lemma EndLater(items: seq<Unit>, t: Table, n: nat, now: seq<Unit>)
    requires Rising(items) && OneTable(items, t) && n < |items| && Unmoved(items, n, now)
    ensures forall i :: n <= i < |now| ==> End(now[i]) > items[n].start
  {
    forall i | n <= i < |now| ensures End(now[i]) > items[n].start {
      assert i > n ==> items[n].start < items[i].start;
    }
  }

  lemma {:induction false} AbsorberReaches(items: seq<Unit>, u: Unit, i: nat, k: nat)
    requires i <= k < |items| && Adjacent(items[k], u)
    ensures Absorber(items, u, i) <= k
    decreases k - i
  {
    if i < k { AbsorberReaches(items, u, i + 1, k); }
  }

  /** A marked unit is never the first that the next one continues. */
  lemma MarkedNotFirst(items: seq<Unit>, t: Table, n: nat, now: seq<Unit>, marked: seq<nat>, r: nat)
    requires OneTable(items, t) && n < |items| && Unmoved(items, n, now) && MarkOk(items, n, now, marked, r)
    ensures Absorber(now, items[n], 0) != r
  {
    if h :| Shadowed(now, marked, r, h) {
      if Adjacent(now[r], items[n]) { AbsorberReaches(now, items[n], 0, h); }
    }
  }

  /** No unit that absorbed another is itself marked: the absorber of unit n is unmarked and
      lies before it. */
  lemma AbsorberUnmarked(items: seq<Unit>, t: Table, n: nat, now: seq<Unit>, marked: seq<nat>)
    requires Rising(items) && OneTable(items, t) && n < |items| && SweepInv(items, n, now, marked)
    requires Absorbs(now, items[n])
    ensures var k := Absorber(now, items[n], 0); k < n && k !in marked
  {
    EndLater(items, t, n, now);
    var k := Absorber(now, items[n], 0);
    forall j | 0 <= j < |marked| ensures marked[j] != k {
      assert MarkOk(items, n, now, marked, marked[j]);
      hide MarkOk, Absorber, Rising;
      MarkedNotFirst(items, t, n, now, marked, marked[j]);
    }
  }

  lemma SweepStepFirst(items: seq<Unit>, t: Table, n: nat, now: seq<Unit>, marked: seq<nat>)
    requires Rising(items) && OneTable(items, t) && n < |items| && SweepInv(items, n, now, marked)
    requires !Absorbs(now, items[n])
    ensures SweepInv(items, n + 1, now, marked)
  {
    assert NoneMeet(n + 1, now, marked) by {
      forall i | 0 <= i < |now| ensures End(now[i]) != now[n].start {
        assert !Adjacent(now[i], items[n]);
      }
    }
    assert MarksOk(items, n + 1, now, marked) by {
      forall j | 0 <= j < |marked| ensures MarkOk(items, n + 1, now, marked, marked[j]) {
        assert MarkOk(items, n, now, marked, marked[j]);
      }
    }
  }

  lemma MergeKeepsMark(items: seq<Unit>, t: Table, n: nat, now: seq<Unit>, marked: seq<nat>, j: nat)
    requires Rising(items) && OneTable(items, t) && n < |items| && SweepInv(items, n, now, marked)
    requires Absorbs(now, items[n]) && j <= |marked|
    ensures MarkOk(items, n + 1, Absorb(now, items[n]), marked + [n], (marked + [n])[j])
  {
    AbsorberUnmarked(items, t, n, now, marked);
    var k := Absorber(now, items[n], 0);
    var now', marked' := Absorb(now, items[n]), marked + [n];
    assert End(now'[k]) == End(items[n]);
    if j == |marked| {
      assert Shadowed(now', marked', n, k);
    } else {
      var r := marked[j];
      assert MarkOk(items, n, now, marked, r) && r in marked;
      if h :| Shadowed(now, marked, r, h) {
        if h != k { assert Shadowed(now', marked', r, h); }
      }
    }
  }

  lemma MergeKeepsPlace(items: seq<Unit>, t: Table, n: nat, now: seq<Unit>)
    requires OneTable(items, t) && n < |items| && Unmoved(items, n, now)
    requires Absorber(now, items[n], 0) < n
    ensures Unmoved(items, n + 1, Absorb(now, items[n]))
  {}

  lemma MergeKeepsPair(items: seq<Unit>, t: Table, n: nat, now: seq<Unit>, marked: seq<nat>, k: nat, v: nat, i: nat)
    requires Rising(items) && OneTable(items, t) && n < |items| && Unmoved(items, n, now) && NoneMeet(n, now, marked)
    requires k < n && Adjacent(now[k], items[n]) && v < n && v !in marked && i < |now|
    ensures var now' := now[k := Fuse(now[k], items[n])]; End(now'[i]) != now'[v].start
  {
    assert items[v].start < items[n].start < End(items[n]);
    assert End(now[i]) != now[v].start;
  }

  lemma MergeKeepsApart(items: seq<Unit>, t: Table, n: nat, now: seq<Unit>, marked: seq<nat>)
    requires Rising(items) && OneTable(items, t) && n < |items| && SweepInv(items, n, now, marked)
    requires Absorbs(now, items[n])
    ensures Unmoved(items, n + 1, Absorb(now, items[n])) && NoneMeet(n + 1, Absorb(now, items[n]), marked + [n])
  {
    hide MarksOk, Rising, OneTable, Unmoved, Absorber;
    AbsorberUnmarked(items, t, n, now, marked);
    MergeKeepsPlace(items, t, n, now);
    var k := Absorber(now, items[n], 0);
    assert Unmoved(items, n, now) && NoneMeet(n, now, marked) && n in marked + [n];
    var now' := Absorb(now, items[n]);
    assert now' == now[k := Fuse(now[k], items[n])];
    forall v, i | 0 <= v < n + 1 && v !in marked + [n] && 0 <= i < |now'| ensures End(now'[i]) != now'[v].start {
      hide NoneMeet, SweepInv;
      MergeKeepsPair(items, t, n, now, marked, k, v, i);
    }
  }

  lemma SweepStepMerge(items: seq<Unit>, t: Table, n: nat, now: seq<Unit>, marked: seq<nat>)
    requires Rising(items) && OneTable(items, t) && n < |items| && SweepInv(items, n, now, marked)
    requires Absorbs(now, items[n])
    ensures SweepInv(items, n + 1, Absorb(now, items[n]), marked + [n])
  {
    MergeKeepsApart(items, t, n, now, marked);
    assert Ascending(marked + [n], n + 1) && |marked + [n]| == |marked| + 1;
    hide MarkOk, NoneMeet, Unmoved, Absorb, Absorbs, Rising, OneTable, Ascending;
    forall j: nat | j < |marked + [n]|
      ensures MarkOk(items, n + 1, Absorb(now, items[n]), marked + [n], (marked + [n])[j])
    {
      MergeKeepsMark(items, t, n, now, marked, j);
    }
  }

  lemma SweepStart(items: seq<Unit>, t: Table)
    requires OneTable(items, t)
    ensures SweepInv(items, 0, items, [])
  {}

  lemma {:induction false} SweepKeepsInv(items: seq<Unit>, t: Table, n: nat)
    requires Rising(items) && OneTable(items, t) && n <= |items|
    ensures SweepInv(items, n, Sweep(items, n).0, Sweep(items, n).1)
  {
    hide SweepInv, Rising, OneTable, Absorb, Absorbs;
    if n == 0 {
      SweepStart(items, t);
    } else {
      SweepKeepsInv(items, t, n - 1);
      var (now, marked) := Sweep(items, n - 1);
      if Absorbs(now, items[n - 1]) {
        SweepStepMerge(items, t, n - 1, now, marked);
      } else {
        SweepStepFirst(items, t, n - 1, now, marked);
      }
    }
  }

  ghost function SumMarked<X(!new)>(f: Unit -> multiset<X>, items: seq<Unit>, marked: seq<nat>): multiset<X>
    requires forall i :: 0 <= i < |marked| ==> marked[i] < |items|
  {
    if marked == [] then multiset{}
    else SumMarked(f, items, marked[..|marked| - 1]) + f(items[marked[|marked| - 1]])
  }

  lemma SumMarkedMore<X(!new)>(f: Unit -> multiset<X>, items: seq<Unit>, marked: seq<nat>, k: nat)
    requires k < |items| && forall i :: 0 <= i < |marked| ==> marked[i] < |items|
    ensures SumMarked(f, items, marked + [k]) == SumMarked(f, items, marked) + f(items[k])
  {
    assert (marked + [k])[..|marked|] == marked;
  }

  lemma SweepStep(items: seq<Unit>, n: nat)
    requires 0 < n <= |items|
    ensures var (now, marked) := Sweep(items, n - 1);
            Sweep(items, n) ==
            if Absorbs(now, items[n - 1]) then (Absorb(now, items[n - 1]), marked + [n - 1]) else (now, marked)
  {}

  lemma SweepNothing<X(!new)>(ok: Unit -> bool, f: Unit -> multiset<X>, items: seq<Unit>)
    requires All(ok, items)
    ensures Sweep(items, 0) == (items, []) && Sum(f, items) == Sum(f, items) + SumMarked(f, items, [])
  {}

  lemma {:induction false} SweepSum<X(!new)>(ok: Unit -> bool, f: Unit -> multiset<X>, items: seq<Unit>, n: nat)
    requires n <= |items| && Additive(ok, f) && All(ok, items)
    ensures Ascending(Sweep(items, n).1, n) && All(ok, Sweep(items, n).0)
    ensures Sum(f, Sweep(items, n).0) == Sum(f, items) + SumMarked(f, items, Sweep(items, n).1)
  {
    hide Sweep, Sum, SumMarked, Additive, Absorb, Absorbs;
    SweepMarks(items, n);
    if n == 0 {
      SweepNothing(ok, f, items);
    } else {
      SweepSum(ok, f, items, n - 1);
      var (now, marked) := Sweep(items, n - 1);
      SweepMarks(items, n - 1);
      SweepStep(items, n);
      if Absorbs(now, items[n - 1]) {
        AbsorbSum(ok, f, now, items[n - 1]);
        SumMarkedMore(f, items, marked, n - 1);
      }
    }
  }

  // ---------- the shifted removal ----------

  function NextAfter(marked: seq<nat>, n: nat): nat
    requires n <= |marked|
  {
    if n == 0 then 0 else marked[n - 1] + 1
  }

  /** at lists the positions of items that are left in r, in order. */
  ghost predicate Kept(items: seq<Unit>, r: seq<Unit>, at: seq<nat>) {
    |at| == |r| && Ascending(at, |items|) && forall i :: 0 <= i < |at| ==> r[i] == items[at[i]]
  }

  ghost predicate Avoids(at: seq<nat>, marked: seq<nat>) {
    forall i, j :: 0 <= i < |at| && 0 <= j < |marked| ==> at[i] != marked[j]
  }

  function Without(at: seq<nat>, k: nat): (r: seq<nat>)
    requires k < |at|
    ensures |r| == |at| - 1
    ensures forall i :: 0 <= i < |r| ==> r[i] == at[if i < k then i else i + 1]
  {
    at[..k] + at[k + 1..]
  }

  lemma WithoutKept(items: seq<Unit>, r: seq<Unit>, at: seq<nat>, k: nat)
    requires Kept(items, r, at) && k < |at|
    ensures Kept(items, r[..k] + r[k + 1..], Without(at, k))
  {}

  lemma WithoutAvoids(at: seq<nat>, bound: nat, marked: seq<nat>, k: nat)
    requires Ascending(at, bound) && Avoids(at, marked) && k < |at|
    ensures Avoids(Without(at, k), marked + [at[k]])
  {}

  /** From position e of the list on, nothing has been taken out after the first n. */
  ghost predicate TailAt(at: seq<nat>, e: nat, n: nat) {
    forall i :: 0 <= i < |at| && i + n >= e ==> at[i] == i + n
  }

  lemma WithoutTail(at: seq<nat>, e: nat, n: nat, k: nat)
    requires TailAt(at, e, n) && k < |at| && k + n >= e
    ensures at[k] == k + n && TailAt(Without(at, k), k + n + 1, n + 1)
  {}

  lemma RemoveStep(items: seq<Unit>, marked: seq<nat>, n: nat)
    requires n < |marked| && Ascending(marked, |items|)
    ensures n <= marked[n] < |items| && NextAfter(marked, n) <= marked[n]
    ensures var r, k := RemoveShifted(items, marked, n), marked[n] - n;
            k < |r| && RemoveShifted(items, marked, n + 1) == r[..k] + r[k + 1..]
  {
    AscendingGrows(marked, n, |items|);
    if n > 0 { assert marked[n - 1] < marked[n]; }
  }

  /** Every remaining unit was there at an unmarked position, in the same order. */
  lemma {:induction false} RemoveKeeps(items: seq<Unit>, marked: seq<nat>, n: nat) returns (at: seq<nat>)
    requires n <= |marked| && Ascending(marked, |items|)
    ensures Kept(items, RemoveShifted(items, marked, n), at) && Avoids(at, marked[..n])
    ensures TailAt(at, NextAfter(marked, n), n)
  {
    hide RemoveShifted, Avoids, TailAt, Kept, Ascending;
    if n == 0 {
      at := KeepAll(items, marked);
    } else {
      assert Ascending(marked, |items|);
      var was := RemoveKeeps(items, marked, n - 1);
      at := KeepNext(items, marked, n - 1, was);
    }
  }

  lemma KeepAll(items: seq<Unit>, marked: seq<nat>) returns (at: seq<nat>)
    requires Ascending(marked, |items|)
    ensures Kept(items, RemoveShifted(items, marked, 0), at) && Avoids(at, marked[..0])
    ensures TailAt(at, NextAfter(marked, 0), 0)
  {
    at := seq(|items|, i => i);
  }

  lemma KeepNext(items: seq<Unit>, marked: seq<nat>, n: nat, was: seq<nat>) returns (at: seq<nat>)
    requires n < |marked| && Ascending(marked, |items|)
    requires Kept(items, RemoveShifted(items, marked, n), was) && Avoids(was, marked[..n])
    requires TailAt(was, NextAfter(marked, n), n)
    ensures Kept(items, RemoveShifted(items, marked, n + 1), at) && Avoids(at, marked[..n + 1])
    ensures TailAt(at, NextAfter(marked, n + 1), n + 1)
  {
    hide Avoids, RemoveShifted, TailAt, Ascending;
    RemoveStep(items, marked, n);
    var k := marked[n] - n;
    assert |was| == |RemoveShifted(items, marked, n)| && Ascending(was, |items|);
    hide Kept;
    WithoutTail(was, NextAfter(marked, n), n, k);
    assert marked[..n + 1] == marked[..n] + [was[k]];
    at := Without(was, k);
    WithoutKept(items, RemoveShifted(items, marked, n), was, k);
    WithoutAvoids(was, |items|, marked[..n], k);
  }

  /** The n-th removal takes out the n-th marked unit. */
  lemma RemoveNext(items: seq<Unit>, marked: seq<nat>, n: nat) returns (at: nat)
    requires n < |marked| && Ascending(marked, |items|)
    ensures var r := RemoveShifted(items, marked, n);
            && at == marked[n] - n && at < |r| && r[at] == items[marked[n]]
            && RemoveShifted(items, marked, n + 1) == r[..at] + r[at + 1..]
  {
    var left := RemoveKeeps(items, marked, n);
    RemoveStep(items, marked, n);
    hide RemoveShifted, Ascending;
    at := marked[n] - n;
    assert left[at] == marked[n];
  }

  lemma {:induction false} RemoveSum<X(!new)>(f: Unit -> multiset<X>, items: seq<Unit>, marked: seq<nat>, n: nat)
    requires n <= |marked| && Ascending(marked, |items|)
    ensures Sum(f, RemoveShifted(items, marked, n)) + SumMarked(f, items, marked[..n]) == Sum(f, items)
  {
    if n > 0 {
      RemoveSum(f, items, marked, n - 1);
      var at := RemoveNext(items, marked, n - 1);
      var r := RemoveShifted(items, marked, n - 1);
      assert marked[..n][..n - 1] == marked[..n - 1];
      assert SumMarked(f, items, marked[..n]) == SumMarked(f, items, marked[..n - 1]) + f(r[at]);
      hide RemoveShifted, Ascending, SumMarked, Sum;
      SumAt(f, r, at);
      SumConcat(f, r[..at], r[at + 1..]);
    }
  }

  // ---------- the results ----------

  ghost predicate DistinctStarts(items: seq<Unit>) {
    forall i, j :: 0 <= i < j < |items| && items[i].table == items[j].table ==> items[i].start != items[j].start
  }

  ghost predicate NonEmpty(items: seq<Unit>) { forall i :: 0 <= i < |items| ==> items[i].values != [] }

  lemma {:induction false} CollectStarts(src: seq<Unit>, t: Table, n: nat)
    requires n <= |src| && DistinctStarts(src) && NonEmpty(src)
    ensures OneTable(Collect(src, t, n), t) && DistinctStarts(Collect(src, t, n))
    ensures forall i :: 0 <= i < |Collect(src, t, n)| ==>
              exists j :: 0 <= j < n && src[j].table == t && src[j].start == Collect(src, t, n)[i].start
  {
    if n > 0 { CollectStarts(src, t, n - 1); }
  }

  lemma {:induction false} InsertRising(u: Unit, items: seq<Unit>, t: Table)
    requires Rising(items) && OneTable(items, t) && u.table == t && u.values != []
    requires forall i :: 0 <= i < |items| ==> items[i].start != u.start
    ensures Rising(InsertSorted(u, items)) && OneTable(InsertSorted(u, items), t)
    ensures forall i :: 0 <= i < |InsertSorted(u, items)| ==>
              InsertSorted(u, items)[i] == u || InsertSorted(u, items)[i] in items
  {
    if items != [] && u.start > items[0].start {
      InsertRising(u, items[1..], t);
      var rest := InsertSorted(u, items[1..]);
      assert InsertSorted(u, items) == [items[0]] + rest;
      forall i | 0 <= i < |rest| ensures items[0].start < rest[i].start && (rest[i] == u || rest[i] in items) {
        if rest[i] != u { assert rest[i] in items[1..]; }
      }
    }
  }

  lemma {:induction false} SortedRising(items: seq<Unit>, t: Table)
    requires OneTable(items, t) && DistinctStarts(items)
    ensures Rising(Sorted(items)) && OneTable(Sorted(items), t)
    ensures forall i :: 0 <= i < |Sorted(items)| ==> Sorted(items)[i] in items
  {
    if items != [] {
      SortedRising(items[1..], t);
      var rest := Sorted(items[1..]);
      forall i | 0 <= i < |rest| ensures rest[i].start != items[0].start {
        assert rest[i] in items[1..];
      }
      InsertRising(items[0], rest, t);
    }
  }

  lemma {:induction false} SumMarkedSame<X(!new)>(f: Unit -> multiset<X>, a: seq<Unit>, b: seq<Unit>, marked: seq<nat>)
    requires |a| == |b| && forall i :: 0 <= i < |marked| ==> marked[i] < |a| && a[marked[i]] == b[marked[i]]
    ensures SumMarked(f, a, marked) == SumMarked(f, b, marked)
    decreases |marked|
  {
    if marked != [] { SumMarkedSame(f, a, b, marked[..|marked| - 1]); }
  }

  lemma SweepLeavesMarked(items: seq<Unit>, t: Table)
    requires Rising(items) && OneTable(items, t)
    ensures Ascending(Sweep(items, |items|).1, |items|) && |Sweep(items, |items|).0| == |items|
    ensures forall i :: 0 <= i < |Sweep(items, |items|).1| ==>
              Sweep(items, |items|).0[Sweep(items, |items|).1[i]] == items[Sweep(items, |items|).1[i]]
  {
    SweepKeepsInv(items, t, |items|);
    var (now, marked) := Sweep(items, |items|);
    hide Sweep;
    forall i | 0 <= i < |marked| ensures now[marked[i]] == items[marked[i]] {
      assert MarkOk(items, |items|, now, marked, marked[i]);
    }
  }

  lemma Cancel<X(!new)>(r: multiset<X>, m: multiset<X>, now: multiset<X>, before: multiset<X>)
    requires r + m == now && now == before + m
    ensures r == before
  {
    assert r == now - m == before;
  }

  lemma MergedSum<X(!new)>(ok: Unit -> bool, f: Unit -> multiset<X>, sorted: seq<Unit>, t: Table)
    requires Additive(ok, f) && All(ok, sorted) && OneTable(sorted, t) && Rising(sorted)
    ensures var (now, marked) := Sweep(sorted, |sorted|);
            && |now| == |sorted| && Ascending(marked, |now|)
            && All(ok, RemoveShifted(now, marked, |marked|))
            && Sum(f, RemoveShifted(now, marked, |marked|)) == Sum(f, sorted)
  {
    SweepSum(ok, f, sorted, |sorted|);
    SweepLeavesMarked(sorted, t);
    var (now, marked) := Sweep(sorted, |sorted|);
    hide Sweep, RemoveShifted, Additive, All, Sum, SumMarked;
    RemoveSum(f, now, marked, |marked|);
    assert marked[..|marked|] == marked;
    SumMarkedSame(f, now, sorted, marked);
    RemoveAll(ok, now, marked);
    Cancel(Sum(f, RemoveShifted(now, marked, |marked|)), SumMarked(f, sorted, marked), Sum(f, now), Sum(f, sorted));
  }

  /** One table: every additive measure is preserved, and so is the property it relies on. */
  lemma SortAndMergeSum<X(!new)>(ok: Unit -> bool, f: Unit -> multiset<X>, items: seq<Unit>, t: Table)
    requires Additive(ok, f) && All(ok, items) && OneTable(items, t) && DistinctStarts(items)
    ensures All(ok, SortAndMerge(items)) && Sum(f, SortAndMerge(items)) == Sum(f, items)
  {
    SortedSum(ok, f, items);
    SortedRising(items, t);
    hide Sweep, Sorted, SortAndMerge, RemoveShifted, Additive, All, Sum;
    MergedSum(ok, f, Sorted(items), t);
    SortAndMergeIs(items);
  }

  lemma SortAndMergeIs(items: seq<Unit>)
    ensures var (now, marked) := Sweep(Sorted(items), |Sorted(items)|);
            |now| == |Sorted(items)| && Ascending(marked, |now|) &&
            SortAndMerge(items) == RemoveShifted(now, marked, |marked|)
  {
    SweepMarks(Sorted(items), |Sorted(items)|);
  }

  lemma RemoveAll(ok: Unit -> bool, items: seq<Unit>, marked: seq<nat>)
    requires Ascending(marked, |items|) && All(ok, items)
    ensures All(ok, RemoveShifted(items, marked, |marked|))
  {
    var at := RemoveKeeps(items, marked, |marked|);
    var r := RemoveShifted(items, marked, |marked|);
    forall i | 0 <= i < |r| ensures ok(r[i]) { assert r[i] == items[at[i]]; }
  }

  /** Coalescing conserves every additive measure over the four tables. */
  lemma MergeConserves<X(!new)>(ok: Unit -> bool, f: Unit -> multiset<X>, src: seq<Unit>)
    requires Additive(ok, f) && All(ok, src) && DistinctStarts(src) && NonEmpty(src)
    ensures All(ok, MergeUnits(src))
    ensures Sum(f, MergeUnits(src)) ==
            Sum(f, InTable(src, Holding)) + Sum(f, InTable(src, Discrete)) + Sum(f, InTable(src, Input)) +
            Sum(f, InTable(src, Coils))
  {
    forall t ensures All(ok, MergeTable(src, t)) && Sum(f, MergeTable(src, t)) == Sum(f, InTable(src, t)) {
      CollectSum(ok, f, src, t, |src|);
      CollectStarts(src, t, |src|);
      assert src[..|src|] == src;
      SortAndMergeSum(ok, f, Collect(src, t, |src|), t);
    }
    SumConcat(f, MergeTable(src, Holding), MergeTable(src, Discrete));
    SumConcat(f, MergeTable(src, Holding) + MergeTable(src, Discrete), MergeTable(src, Input));
    SumConcat(f, MergeTable(src, Holding) + MergeTable(src, Discrete) + MergeTable(src, Input), MergeTable(src, Coils));
  }

  lemma InTableHead<X(!new)>(f: Unit -> multiset<X>, src: seq<Unit>, t: Table)
    requires src != []
    ensures Sum(f, InTable(src, t)) ==
            if src[0].table == t then f(src[0]) + Sum(f, InTable(src[1..], t)) else Sum(f, InTable(src[1..], t))
  {
    if src[0].table == t {
      assert InTable(src, t)[1..] == InTable(src[1..], t);
    } else {
      assert InTable(src, t) == InTable(src[1..], t);
    }
  }

  lemma {:induction false} TablesPartition<X(!new)>(f: Unit -> multiset<X>, src: seq<Unit>)
    requires forall i :: 0 <= i < |src| ==> src[i].table != Invalid
    ensures Sum(f, InTable(src, Holding)) + Sum(f, InTable(src, Discrete)) + Sum(f, InTable(src, Input)) +
            Sum(f, InTable(src, Coils)) == Sum(f, src)
  {
    if src != [] {
      TablesPartition(f, src[1..]);
      InTableHead(f, src, Holding);
      InTableHead(f, src, Discrete);
      InTableHead(f, src, Input);
      InTableHead(f, src, Coils);
      hide InTable;
      assert src[0].table != Invalid;
    }
  }

  /** A word at an address of a table. */
  datatype Cell = Cell(table: Table, address: nat, word: Word)

  ghost function CellSeq(u: Unit): seq<Cell> {
    seq(|u.values|, i requires 0 <= i < |u.values| => Cell(u.table, u.start + i, u.values[i]))
  }

  ghost function Cells(u: Unit): multiset<Cell> { multiset(CellSeq(u)) }

  lemma CellsAdditive(any: Unit -> bool)
    requires forall u :: any(u)
    ensures Additive(any, Cells)
  {
    forall a, b | any(a) && any(b) && Adjacent(a, b) ensures Cells(Fuse(a, b)) == Cells(a) + Cells(b) {
      assert CellSeq(Fuse(a, b)) == CellSeq(a) + CellSeq(b);
    }
  }

  /** Coalescing neither loses, duplicates nor moves a single word. */
  lemma CellsConserved(src: seq<Unit>)
    requires DistinctStarts(src) && NonEmpty(src)
    requires forall i :: 0 <= i < |src| ==> src[i].table != Invalid
    ensures Sum(Cells, MergeUnits(src)) == Sum(Cells, src)
  {
    var any := (u: Unit) => true;
    CellsAdditive(any);
    hide Additive, Cells, DistinctStarts, NonEmpty, MergeUnits, InTable, Sum;
    assert All(any, src);
    MergeConserves(any, Cells, src);
    TablesPartition(Cells, src);
  }

  lemma KeptCanonical(items: seq<Unit>, t: Table, now: seq<Unit>, marked: seq<nat>, r: seq<Unit>, at: seq<nat>)
    requires Rising(items) && OneTable(items, t) && SweepInv(items, |items|, now, marked)
    requires Kept(now, r, at) && Avoids(at, marked)
    ensures OneTable(r, t) && Rising(r)
    ensures forall i, j :: 0 <= i < |r| && 0 <= j < |r| ==> !Adjacent(r[i], r[j])
  {
    hide MarksOk;
    forall i | 0 <= i < |r| ensures at[i] !in marked && now[at[i]].start == items[at[i]].start {}
  }

  /** Each table's result is sorted and no unit ends where another starts. */
  lemma MergeCanonical(src: seq<Unit>, t: Table)
    requires DistinctStarts(src) && NonEmpty(src)
    ensures OneTable(MergeTable(src, t), t) && Rising(MergeTable(src, t))
    ensures forall i, j :: 0 <= i < |MergeTable(src, t)| && 0 <= j < |MergeTable(src, t)| ==>
              !Adjacent(MergeTable(src, t)[i], MergeTable(src, t)[j])
  {
    var items := Collect(src, t, |src|);
    CollectStarts(src, t, |src|);
    SortedRising(items, t);
    SortAndMergeIs(items);
    hide Sweep, Sorted, RemoveShifted, Collect, SweepInv, Rising, OneTable, SortAndMerge;
    SweepKeepsInv(Sorted(items), t, |Sorted(items)|);
    var (now, marked) := Sweep(Sorted(items), |Sorted(items)|);
    var at := RemoveKeeps(now, marked, |marked|);
    assert marked[..|marked|] == marked;
    KeptCanonical(Sorted(items), t, now, marked, SortAndMerge(items), at);
  }

  // ---------- two units at one address ----------

  lemma SweepMore(items: seq<Unit>, n: nat, now: seq<Unit>, marked: seq<nat>, k: nat)
    requires 0 < n <= |items| && Sweep(items, n - 1) == (now, marked) && Absorber(now, items[n - 1], 0) == k
    ensures Sweep(items, n) ==
            if k < |now| then (now[k := Fuse(now[k], items[n - 1])], marked + [n - 1]) else (now, marked)
  {}

  lemma NoAbsorber(items: seq<Unit>, u: Unit)
    requires forall i :: 0 <= i < |items| ==> !Adjacent(items[i], u)
    ensures Absorber(items, u, 0) == |items|
  {}

  lemma AbsorberAt(items: seq<Unit>, u: Unit, k: nat)
    requires k < |items| && Adjacent(items[k], u) && forall i :: 0 <= i < k ==> !Adjacent(items[i], u)
    ensures Absorber(items, u, 0) == k
  {
    AbsorberReaches(items, u, 0, k);
  }

  lemma RemoveSecond(items: seq<Unit>, marked: seq<nat>, n: nat)
    requires |items| == 4 && marked == [1, 2, 3] && 1 <= n <= 3
    ensures var before := RemoveShifted(items, marked, n - 1);
            RemoveShifted(items, marked, n) == before[..1] + before[2..]
    ensures RemoveShifted(items, marked, 0) == items
  {}

  lemma LastThreeRemoved(items: seq<Unit>, marked: seq<nat>)
    requires |items| == 4 && marked == [1, 2, 3]
    ensures RemoveShifted(items, marked, |marked|) == [items[0]]
  {
    RemoveSecond(items, marked, 1);
    RemoveSecond(items, marked, 2);
    RemoveSecond(items, marked, 3);
  }

  /** The first three turns of the sweep fuse the first three units. */
  lemma SweepFirstThree(a: Word, b: Word, c: Word, d: Word)
    ensures var (now, marked) := Sweep(Quartet(a, b, c, d), 3);
            now == Quartet(a, b, c, d)[0 := Unit(Holding, 0, [a, b, c])] && marked == [1, 2]
  {
    var items := Quartet(a, b, c, d);
    var one: seq<nat>, two: seq<nat> := [1], [1, 2];
    assert Sweep(items, 0) == (items, []);
    hide Sweep;
    NoAbsorber(items, items[0]);
    SweepMore(items, 1, items, [], 4);
    var now := items[0 := Unit(Holding, 0, [a, b])];
    AbsorberAt(items, items[1], 0);
    SweepMore(items, 2, items, [], 0);
    assert Fuse(items[0], items[1]) == now[0] && [] + [2 - 1] == one;
    AbsorberAt(now, items[2], 0);
    SweepMore(items, 3, now, one, 0);
    assert Fuse(now[0], items[2]) == Unit(Holding, 0, [a, b, c]) && one + [3 - 1] == two;
  }

  function Quartet(a: Word, b: Word, c: Word, d: Word): seq<Unit> {
    [Unit(Holding, 0, [a]), Unit(Holding, 1, [b]), Unit(Holding, 2, [c]), Unit(Holding, 2, [d])]
  }

  lemma QuartetSwept(a: Word, b: Word, c: Word, d: Word)
    ensures var (now, marked) := Sweep(Quartet(a, b, c, d), 4);
            Ascending(marked, |now|) && RemoveShifted(now, marked, |marked|) == [Unit(Holding, 0, [a, b, c])]
  {
    var items := Quartet(a, b, c, d);
    SweepMarks(items, 4);
    hide Sweep, RemoveShifted;
    SweepFirstThree(a, b, c, d);
    var (now, marked) := Sweep(items, 3);
    AbsorberAt(now, items[3], 1);
    SweepMore(items, 4, now, marked, 1);
    assert Sweep(items, 4).1 == [1, 2, 3];
    LastThreeRemoved(Sweep(items, 4).0, Sweep(items, 4).1);
  }

  /** The four units with the later addresses first. */
  function Backwards(a: Word, b: Word, c: Word, d: Word): seq<Unit> {
    [Unit(Holding, 2, [c]), Unit(Holding, 2, [d]), Unit(Holding, 1, [b]), Unit(Holding, 0, [a])]
  }

  lemma CollectMore(src: seq<Unit>, n: nat)
    requires 0 < n <= |src| && Collect(src, Holding, n - 1) == src[..n - 1] && src[n - 1].table == Holding
    requires forall i :: 0 <= i < n - 1 ==> !Adjacent(src[i], src[n - 1])
    ensures Collect(src, Holding, n) == src[..n]
  {
    NoAbsorber(src[..n - 1], src[n - 1]);
    assert src[..n - 1] + [src[n - 1]] == src[..n];
  }

  lemma {:induction false} CollectOther(src: seq<Unit>, t: Table, n: nat)
    requires n <= |src| && forall i :: 0 <= i < |src| ==> src[i].table != t
    ensures Collect(src, t, n) == []
  {
    if n > 0 { CollectOther(src, t, n - 1); }
  }

  lemma SortedStep(u: Unit, rest: seq<Unit>)
    ensures Sorted([u] + rest) == InsertSorted(u, Sorted(rest))
  {
    hide InsertSorted;
    assert ([u] + rest)[1..] == rest;
  }

  /** A unit goes behind the one that starts before it and in front of the others. */
  lemma InsertSecond(u: Unit, first: Unit, last: Unit)
    requires first.start < u.start <= last.start
    ensures InsertSorted(u, [first, last]) == [first, u, last]
  {
    assert [first, last][1..] == [last];
    assert InsertSorted(u, [last]) == [u, last];
  }

  lemma InsertThird(u: Unit, one: Unit, two: Unit, last: Unit)
    requires one.start < u.start && two.start < u.start <= last.start
    ensures InsertSorted(u, [one, two, last]) == [one, two, u, last]
  {
    assert [one, two, last][1..] == [two, last];
    InsertSecond(u, two, last);
    hide InsertSorted;
    InsertPast(u, one, [two, last]);
    assert [one] + [two, last] == [one, two, last];
  }

  lemma InsertPast(u: Unit, first: Unit, rest: seq<Unit>)
    requires first.start < u.start
    ensures InsertSorted(u, [first] + rest) == [first] + InsertSorted(u, rest)
  {
    assert ([first] + rest)[1..] == rest;
  }

  lemma BackwardsSorted(a: Word, b: Word, c: Word, d: Word)
    ensures Sorted(Backwards(a, b, c, d)) == Quartet(a, b, c, d)
  {
    var src, q := Backwards(a, b, c, d), Quartet(a, b, c, d);
    hide Sorted, InsertSorted;
    NothingSorted(q[0]);
    SortedStep(q[0], []);
    assert [q[0]] + [] == [q[0]];
    SortedStep(q[1], [q[0]]);
    InsertLast(q[1], [q[0]]);
    assert Sorted([q[1]] + [q[0]]) == [q[0], q[1]];
    SortedStep(q[3], [q[1]] + [q[0]]);
    InsertLast(q[3], [q[0], q[1]]);
    assert Sorted([q[3]] + ([q[1]] + [q[0]])) == [q[0], q[1], q[3]];
    SortedStep(q[2], [q[3]] + ([q[1]] + [q[0]]));
    InsertThird(q[2], q[0], q[1], q[3]);
    assert src == [q[2]] + ([q[3]] + ([q[1]] + [q[0]]));
    assert q == [q[0], q[1], q[2], q[3]];
  }

  lemma NothingSorted(u: Unit)
    ensures Sorted([]) == [] && InsertSorted(u, []) == [u]
  {}

  lemma {:induction false} InsertLast(u: Unit, items: seq<Unit>)
    requires forall i :: 0 <= i < |items| ==> items[i].start < u.start
    ensures InsertSorted(u, items) == items + [u]
    decreases |items|
  {
    if items != [] {
      InsertLast(u, items[1..]);
      assert [items[0]] + (items[1..] + [u]) == items + [u];
    }
  }

  lemma EmptyTable(src: seq<Unit>, t: Table)
    requires forall i :: 0 <= i < |src| ==> src[i].table != t
    ensures MergeTable(src, t) == []
  {
    CollectOther(src, t, |src|);
  }

  /** Distinct starts are more than a convenience: of two units at one address, listed before the
      units that lead up to them, the second is fused into a unit that has itself been marked for
      removal, and its word is lost. */
  lemma DuplicateStartLosesWord(a: Word, b: Word, c: Word, d: Word)
    ensures MergeUnits(Backwards(a, b, c, d)) == [Unit(Holding, 0, [a, b, c])]
  {
    var src := Backwards(a, b, c, d);
    hide Sorted, Sweep, RemoveShifted, SortAndMerge, Absorber;
    assert Collect(src, Holding, 0) == src[..0];
    hide Collect;
    CollectMore(src, 1);
    CollectMore(src, 2);
    CollectMore(src, 3);
    CollectMore(src, 4);
    assert src[..4] == src;
    BackwardsSorted(a, b, c, d);
    SortAndMergeIs(src);
    QuartetSwept(a, b, c, d);
    EmptyTable(src, Discrete);
    EmptyTable(src, Input);
    EmptyTable(src, Coils);
  }
}
