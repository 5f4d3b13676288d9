/** Documents: the map at the top of a JsonDict, whose own keys are never read as list
    indices, with the tree laws lifted to it. */
module JsonDoc {
  import opened Keys
  import opened JsonValue
  import opened JsonLeaves

  type Doc = map<string, Value>

  function Top(d: Doc, k: string): Value { if k in d then d[k] else Null }

  /** JsonDict::value; the empty path finds nothing. */
  function DocGet(d: Doc, p: Path): Value {
    if p == [] then Null else Get(Top(d, p[0]), p[1..])
  }

  predicate DocCanWrite(d: Doc, p: Path) {
    p != [] && CanWrite(Top(d, p[0]), p[1..])
  }

  function DocWrite(d: Doc, p: Path, x: Value): Doc
    requires DocCanWrite(d, p)
  {
    d[p[0] := Write(Top(d, p[0]), p[1..], x)]
  }

  function DocLeaves(d: Doc): seq<LeafEntry> { LeavesFrom(Map(d), 0) }

  ghost predicate TidyDoc(d: Doc) { forall k :: k in d ==> Tidy(d[k]) }

  /** A path an iterator can report: the first key is free, the others are canonical. */
  predicate DocPath(p: Path) { p != [] && CanonicalPath(p[1..]) }

  ghost predicate Related(p: Path, q: Path) {
    p != [] && q != [] && p[0] == q[0] ==> SameKind(p[1..], q[1..]) && SameKind(q[1..], p[1..])
  }

  /** Neither path lies below the other, and they part at a container of one kind. */
  ghost predicate Parted(p: Path, q: Path) { !Comparable(p, q) && Related(p, q) }

  ghost predicate DocApart(leaves: seq<LeafEntry>) {
    && (forall i :: 0 <= i < |leaves| ==> DocPath(leaves[i].0))
    && (forall i, j :: 0 <= i < j < |leaves| ==>
          Parted(leaves[i].0, leaves[j].0))
  }

  lemma TailComparable(p: Path, q: Path)
    requires p != [] && q != []
    ensures Comparable(p, q) <==> p[0] == q[0] && Comparable(p[1..], q[1..])
  {
    assert p == [p[0]] + p[1..] && q == [q[0]] + q[1..];
  }

  lemma DocLeafIsGet(d: Doc, p: Path, s: Scalar)
    requires TidyDoc(d)
    ensures (p, s) in DocLeaves(d) <==> DocPath(p) && DocGet(d, p) == Leaf(s)
  {
    LeavesFromMember(Map(d), 0, p, s);
    var ks := SortedKeys(d.Keys);
    if (p, s) in DocLeaves(d) {
      var j: nat :| BelowChild(Map(d), j, p, s);
      assert ks[j] in ks;
      LeafIsGet(Children(Map(d))[j].1, p[1..], s);
    }
    if DocPath(p) && DocGet(d, p) == Leaf(s) {
      if p[0] !in d { GetBelowNull(p[1..]); assert false; }
      LeafIsGet(d[p[0]], p[1..], s);
      assert p[0] in ks;
      var j :| 0 <= j < |ks| && ks[j] == p[0];
      assert BelowChild(Map(d), j, p, s);
    }
  }

  lemma DocApartPrefixed(k: string, v: Value)
    requires Tidy(v)
    ensures DocApart(Prefixed(k, Leaves(v)))
  {
    var below := Leaves(v);
    var own := Prefixed(k, below);
    LeavesApart(v);
    forall a | 0 <= a < |own| ensures DocPath(own[a].0) && own[a].0[1..] == below[a].0 {
      assert below[a] in below;
      LeafIsGet(v, below[a].0, below[a].1);
    }
    forall a, b | 0 <= a < b < |own|
      ensures Parted(own[a].0, own[b].0)
    {
      TailComparable(own[a].0, own[b].0);
    }
  }

  lemma DocApartConcat(own: seq<LeafEntry>, later: seq<LeafEntry>)
    requires DocApart(own) && DocApart(later)
    requires forall x, y :: x in own && y in later ==> x.0 != [] && y.0 != [] && x.0[0] != y.0[0]
    ensures DocApart(own + later)
  {
    var all := own + later;
    forall a | 0 <= a < |all| ensures DocPath(all[a].0) {
      assert all[a] == if a < |own| then own[a] else later[a - |own|];
    }
    forall a, b | 0 <= a < b < |all|
      ensures Parted(all[a].0, all[b].0)
    {
      if b < |own| {
        assert all[a] == own[a] && all[b] == own[b];
      } else if a >= |own| {
        assert all[a] == later[a - |own|] && all[b] == later[b - |own|];
      } else {
        assert all[a] in own && all[b] in later;
      }
    }
  }

  lemma TopChild(d: Doc, i: nat)
    requires TidyDoc(d) && i < |Children(Map(d))|
    ensures var (k, v) := Children(Map(d))[i];
            Tidy(v) && forall j :: i < j < |Children(Map(d))| ==> Children(Map(d))[j].0 != k
  {
    var ks := SortedKeys(d.Keys);
    assert ks[i] in ks;
  }

  lemma LaterLeavesDiffer(d: Doc, i: nat, x: LeafEntry, y: LeafEntry)
    requires TidyDoc(d) && i < |Children(Map(d))|
    requires x in Prefixed(Children(Map(d))[i].0, Leaves(Children(Map(d))[i].1)) && y in LeavesFrom(Map(d), i + 1)
    ensures x.0 != [] && y.0 != [] && x.0[0] != y.0[0]
  {
    hide Children, Leaves, LeavesFrom, Tidy, TidyDoc;
    TopChild(d, i);
    LeavesFromMember(Map(d), i + 1, y.0, y.1);
    var j: nat :| i + 1 <= j && BelowChild(Map(d), j, y.0, y.1);
  }

  lemma {:induction false} DocLeavesFromApart(d: Doc, i: nat)
    requires TidyDoc(d)
    ensures DocApart(LeavesFrom(Map(d), i))
    decreases |Children(Map(d))| - i
  {
    hide Children, Leaves, Tidy, TidyDoc, DocApart;
    if i >= |Children(Map(d))| {
      assert LeavesFrom(Map(d), i) == [];
      NoneApart();
    } else {
      var (k, v) := Children(Map(d))[i];
      TopChild(d, i);
      DocApartPrefixed(k, v);
      DocLeavesFromApart(d, i + 1);
      assert LeavesFrom(Map(d), i) == Prefixed(k, Leaves(v)) + LeavesFrom(Map(d), i + 1);
      hide LeavesFrom, Prefixed;
      forall x, y | x in Prefixed(k, Leaves(v)) && y in LeavesFrom(Map(d), i + 1)
        ensures x.0 != [] && y.0 != [] && x.0[0] != y.0[0]
      {
        LaterLeavesDiffer(d, i, x, y);
      }
      DocApartConcat(Prefixed(k, Leaves(v)), LeavesFrom(Map(d), i + 1));
    }
  }

  lemma NoneApart()
    ensures DocApart([])
  {}

  lemma DocLeavesApart(d: Doc)
    requires TidyDoc(d)
    ensures DocApart(DocLeaves(d))
  {
    DocLeavesFromApart(d, 0);
  }

  // ---------- the write laws at the top ----------

  lemma DocWriteLeaves(d: Doc, p: Path, s: Scalar, q: Path)
    requires DocCanWrite(d, p) && DocPath(p) && DocPath(q)
    ensures DocGet(DocWrite(d, p, Leaf(s)), q).Leaf? <==>
              (p == q || (!Comparable(p, q) && DocGet(d, q).Leaf?))
    ensures p == q ==> DocGet(DocWrite(d, p, Leaf(s)), q) == Leaf(s)
    ensures !Comparable(p, q) ==> DocGet(DocWrite(d, p, Leaf(s)), q) == DocGet(d, q)
  {
    TailComparable(p, q);
    if p[0] == q[0] {
      WriteLeaves(Top(d, p[0]), p[1..], s, q[1..]);
      assert p[1..] == q[1..] ==> p == q by { assert p == [p[0]] + p[1..] && q == [q[0]] + q[1..]; }
    }
  }

  lemma DocCanWriteAcross(d: Doc, p: Path, x: Value, q: Path)
    requires DocCanWrite(d, p) && DocPath(p) && DocPath(q)
    requires !Comparable(p, q) && Related(p, q)
    ensures DocCanWrite(DocWrite(d, p, x), q) <==> DocCanWrite(d, q)
  {
    TailComparable(p, q);
    if p[0] == q[0] {
      var v := Top(d, p[0]);
      if CanWrite(Write(v, p[1..], x), q[1..]) { CanWriteBefore(v, p[1..], x, q[1..]); }
      if CanWrite(v, q[1..]) { CanWriteAfter(v, p[1..], x, q[1..]); }
    }
  }

  /** Two leaves of one document never lie on comparable paths. */
  lemma LeavesIncomparable(d: Doc, p: Path, q: Path)
    requires DocGet(d, p).Leaf? && DocGet(d, q).Leaf? && Comparable(p, q)
    ensures p == q
  {
    if p < q {
      LeafBelowLeaf(d, p, q);
    } else if q < p {
      LeafBelowLeaf(d, q, p);
    }
  }

  lemma LeafBelowLeaf(d: Doc, p: Path, q: Path)
    requires DocGet(d, p).Leaf? && p < q
    ensures DocGet(d, q) == Null
  {
    var rest := q[|p|..];
    assert q[1..] == p[1..] + rest;
    GetSplit(Top(d, p[0]), p[1..], rest);
    GetBelowLeaf(DocGet(d, p).s, rest);
  }

  // ---------- tidiness ----------

  predicate SmallPath(p: Path) { forall i :: 0 <= i < |p| ==> ToIndex(p[i]) < COUNTER_MODULUS }

  lemma {:induction false} LeafPathSmall(v: Value, p: Path)
    requires Tidy(v) && Get(v, p).Leaf?
    ensures SmallPath(p)
    decreases |p|
  {
    if p != [] {
      if Find(v, p[0]).None? { GetBelowNull(p[1..]); assert false; }
      LeafPathSmall(Slot(v, p[0]), p[1..]);
      assert p == [p[0]] + p[1..];
    }
  }

  lemma {:induction false} WriteTidy(v: Value, p: Path, s: Scalar)
    requires Tidy(v) && CanWrite(v, p) && SmallPath(p)
    ensures Tidy(Write(v, p, Leaf(s)))
    decreases |p|
  {
    if p != [] {
      assert SmallPath(p[1..]);
      WriteTidy(Slot(v, p[0]), p[1..], s);
    }
  }

  lemma DocWriteTidy(d: Doc, p: Path, s: Scalar)
    requires TidyDoc(d) && DocCanWrite(d, p) && SmallPath(p[1..])
    ensures TidyDoc(DocWrite(d, p, Leaf(s)))
  {
    WriteTidy(Top(d, p[0]), p[1..], s);
  }

  lemma DocLeafPathSmall(d: Doc, p: Path, s: Scalar)
    requires TidyDoc(d) && (p, s) in DocLeaves(d)
    ensures p != [] && SmallPath(p[1..])
  {
    DocLeafIsGet(d, p, s);
    if p[0] !in d { GetBelowNull(p[1..]); assert false; }
    LeafPathSmall(d[p[0]], p[1..]);
  }
}
