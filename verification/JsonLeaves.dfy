/** The leaves of a document tree in the order its iterators visit them, and their
    description by path reads. */
module JsonLeaves {
  import opened Keys
  import opened JsonValue

  type Entry = (string, Value)
  type LeafEntry = (Path, Scalar)

  /** The wrap-around of the iterator's quint16 element counter. */
  const COUNTER_MODULUS: nat := 65536

  /** The children of a container in iteration order, under the keys an iterator reports. */
  function Children(v: Value): (kids: seq<Entry>)
    ensures forall i :: 0 <= i < |kids| ==> kids[i].1 < v
    ensures v.List? ==> |kids| == |v.xs|
  {
    match v
    case Map(m) =>
      var ks := SortedKeys(m.Keys);
      assert forall i | 0 <= i < |ks| :: ks[i] in ks && m[ks[i]] < v;
      seq(|ks|, i requires 0 <= i < |ks| => (ks[i], m[ks[i]]))
    case List(xs) =>
      seq(|xs|, i requires 0 <= i < |xs| => (IndexKey(i % COUNTER_MODULUS), xs[i]))
    case _ => []
  }

  function Prefixed(k: string, leaves: seq<LeafEntry>): (r: seq<LeafEntry>)
    ensures |r| == |leaves|
    ensures forall i :: 0 <= i < |r| ==> r[i] == ([k] + leaves[i].0, leaves[i].1)
  {
    seq(|leaves|, i requires 0 <= i < |leaves| => ([k] + leaves[i].0, leaves[i].1))
  }

  /** The valid non-container nodes below v, depth first. */
  function Leaves(v: Value): seq<LeafEntry>
    decreases v, |Children(v)| + 1
  {
    match v
    case Null => []
    case Leaf(s) => [([], s)]
    case _ => LeavesFrom(v, 0)
  }

  /** The leaves below the children of v from position i on. */
  function LeavesFrom(v: Value, i: nat): seq<LeafEntry>
    decreases v, |Children(v)| - i
  {
    if i >= |Children(v)| then []
    else Prefixed(Children(v)[i].0, Leaves(Children(v)[i].1)) + LeavesFrom(v, i + 1)
  }

  /** No list longer than the element counter can tell apart, no map key below the top that
      reads as a list index. */
  ghost predicate Tidy(v: Value) {
    match v
    case Map(m) => forall k :: k in m ==> ToIndex(k) == -1 && Tidy(m[k])
    case List(xs) => |xs| <= COUNTER_MODULUS && forall i :: 0 <= i < |xs| ==> Tidy(xs[i])
    case _ => true
  }

  /** Leaf s at path p lies below the j-th child of v. */
  ghost predicate BelowChild(v: Value, j: nat, p: Path, s: Scalar) {
    j < |Children(v)| && p != [] && Children(v)[j].0 == p[0] && (p[1..], s) in Leaves(Children(v)[j].1)
  }

  lemma PrefixedMember(k: string, leaves: seq<LeafEntry>, p: Path, s: Scalar)
    ensures (p, s) in Prefixed(k, leaves) <==> p != [] && p[0] == k && (p[1..], s) in leaves
  {
    var own := Prefixed(k, leaves);
    if (p, s) in own {
      var n :| 0 <= n < |own| && own[n] == (p, s);
      assert p[1..] == leaves[n].0;
      assert leaves[n] == (p[1..], s);
    }
    if p != [] && p[0] == k && (p[1..], s) in leaves {
      var n :| 0 <= n < |leaves| && leaves[n] == (p[1..], s);
      assert p == [k] + p[1..];
      assert own[n] == (p, s);
    }
  }

  lemma {:induction false} LeavesFromMember(v: Value, i: nat, p: Path, s: Scalar)
    ensures (p, s) in LeavesFrom(v, i) <==> exists j: nat :: i <= j && BelowChild(v, j, p, s)
    decreases |Children(v)| - i
  {
    hide Children, ToIndex;
    var kids := Children(v);
    if i < |kids| {
      LeavesFromMember(v, i + 1, p, s);
      PrefixedMember(kids[i].0, Leaves(kids[i].1), p, s);
      assert (p, s) in LeavesFrom(v, i) <==>
             (p, s) in Prefixed(kids[i].0, Leaves(kids[i].1)) || (p, s) in LeavesFrom(v, i + 1);
      assert (p, s) in Prefixed(kids[i].0, Leaves(kids[i].1)) <==> BelowChild(v, i, p, s);
    }
  }

  /** Below the top, a child is found again under the key an iterator reports for it. */
  lemma ChildFound(v: Value, j: nat)
    requires v.IsContainer() && Tidy(v) && j < |Children(v)|
    ensures Canonical(Children(v)[j].0)
    ensures Slot(v, Children(v)[j].0) == Children(v)[j].1
    ensures Tidy(Children(v)[j].1)
  {
    hide ToIndex;
    if v.List? { IndexKeyIndex(j); }
  }

  lemma KeyIsChild(v: Value, k: string) returns (j: nat)
    requires v.IsContainer() && Tidy(v) && Canonical(k) && Find(v, k).Some?
    ensures j < |Children(v)| && Children(v)[j] == (k, Slot(v, k))
  {
    hide ToIndex;
    match v
    case Map(m) =>
      var ks := SortedKeys(m.Keys);
      assert k in ks;
      j :| 0 <= j < |ks| && ks[j] == k;
    case List(xs) =>
      j := ToIndex(k);
  }

  /** The leaf list is exactly what path reads see. */
  lemma {:induction false} LeafIsGet(v: Value, p: Path, s: Scalar)
    requires Tidy(v)
    ensures (p, s) in Leaves(v) <==> CanonicalPath(p) && Get(v, p) == Leaf(s)
    decreases v
  {
    hide Children, ToIndex;
    match v
    case Null => GetBelowNull(p);
    case Leaf(t) => if p != [] { GetBelowLeaf(t, p); }
    case _ =>
      LeavesFromMember(v, 0, p, s);
      if (p, s) in Leaves(v) {
        var j: nat :| BelowChild(v, j, p, s);
        ChildFound(v, j);
        LeafIsGet(Children(v)[j].1, p[1..], s);
        assert p == [p[0]] + p[1..];
      }
      if CanonicalPath(p) && Get(v, p) == Leaf(s) {
        if Find(v, p[0]).None? { GetBelowNull(p[1..]); assert false; }
        var j := KeyIsChild(v, p[0]);
        LeafIsGet(Children(v)[j].1, p[1..], s);
        assert BelowChild(v, j, p, s);
      }
  }

  /** No two leaves lie on comparable paths, and where their paths part they agree on
      whether a list or a map divides them. */
  ghost predicate Apart(leaves: seq<LeafEntry>) {
    forall i, j :: 0 <= i < j < |leaves| ==>
      !Comparable(leaves[i].0, leaves[j].0) && SameKind(leaves[i].0, leaves[j].0) && SameKind(leaves[j].0, leaves[i].0)
  }

  lemma ApartPrefixed(k: string, leaves: seq<LeafEntry>)
    requires Apart(leaves)
    ensures Apart(Prefixed(k, leaves))
  {
    var r := Prefixed(k, leaves);
    forall i, j | 0 <= i < j < |r|
      ensures !Comparable(r[i].0, r[j].0) && SameKind(r[i].0, r[j].0) && SameKind(r[j].0, r[i].0)
    {
      var p, q := leaves[i].0, leaves[j].0;
      assert r[i].0[1..] == p && r[j].0[1..] == q;
      if Comparable(r[i].0, r[j].0) { assert Comparable(p, q); }
    }
  }

  lemma ApartConcat(a: seq<LeafEntry>, b: seq<LeafEntry>)
    requires Apart(a) && Apart(b)
    requires forall x, y :: x in a && y in b ==>
               x.0 != [] && y.0 != [] && x.0[0] != y.0[0] && (ToIndex(x.0[0]) >= 0) == (ToIndex(y.0[0]) >= 0)
    ensures Apart(a + b)
  {
    var r := a + b;
    forall i, j | 0 <= i < j < |r|
      ensures !Comparable(r[i].0, r[j].0) && SameKind(r[i].0, r[j].0) && SameKind(r[j].0, r[i].0)
    {
      if j < |a| {
        assert r[i] == a[i] && r[j] == a[j];
      } else if i >= |a| {
        assert r[i] == b[i - |a|] && r[j] == b[j - |a|];
      } else {
        assert r[i] in a && r[j] in b;
      }
    }
  }

  lemma {:induction false} LeavesApart(v: Value)
    requires Tidy(v)
    ensures Apart(Leaves(v))
    decreases v, |Children(v)| + 1
  {
    if v.IsContainer() { LeavesFromApart(v, 0); }
  }

  lemma ChildKeysDiffer(v: Value, i: nat, j: nat)
    requires v.IsContainer() && Tidy(v) && i < j < |Children(v)|
    ensures Children(v)[i].0 != Children(v)[j].0
    ensures (ToIndex(Children(v)[i].0) >= 0) == (ToIndex(Children(v)[j].0) >= 0)
  {
    hide ToIndex;
    match v
    case Map(m) =>
      var ks := SortedKeys(m.Keys);
      assert ks[i] in ks && ks[j] in ks;
    case List(xs) =>
      IndexKeyIndex(i);
      IndexKeyIndex(j);
      assert Children(v)[i].0 == IndexKey(i) && Children(v)[j].0 == IndexKey(j);
  }

  lemma {:induction false} LeavesFromApart(v: Value, i: nat)
    requires v.IsContainer() && Tidy(v)
    ensures Apart(LeavesFrom(v, i))
    decreases v, |Children(v)| - i
  {
    hide Children, ToIndex;
    var kids := Children(v);
    if i < |kids| {
      ChildFound(v, i);
      LeavesApart(kids[i].1);
      ApartPrefixed(kids[i].0, Leaves(kids[i].1));
      LeavesFromApart(v, i + 1);
      var own := Prefixed(kids[i].0, Leaves(kids[i].1));
      var later := LeavesFrom(v, i + 1);
      forall x, y | x in own && y in later
        ensures x.0 != [] && y.0 != [] && x.0[0] != y.0[0] && (ToIndex(x.0[0]) >= 0) == (ToIndex(y.0[0]) >= 0)
      {
        LeavesFromMember(v, i + 1, y.0, y.1);
        var j: nat :| i + 1 <= j && BelowChild(v, j, y.0, y.1);
        ChildKeysDiffer(v, i, j);
      }
      ApartConcat(own, later);
    }
  }
}
