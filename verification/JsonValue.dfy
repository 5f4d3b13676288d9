/** The document tree held by a JsonDict, with path reads and auto-creating path writes,
    and the laws that relate them. */
module JsonValue {
  import opened Keys

  datatype Scalar = Bool(b: bool) | Int(i: int) | Num(r: real) | Str(s: string)

  /** A QVariant as far as JsonDict tells them apart: invalid, scalar, QVariantMap, QVariantList. */
  datatype Value = Null | Leaf(s: Scalar) | Map(m: map<string, Value>) | List(xs: seq<Value>)
  {
    predicate IsContainer() { Map? || List? }
  }

  // ---------- reading ----------

  /** JsonDict::find on a map or a list; nothing is found below a scalar. */
  function Find(v: Value, k: string): Option<Value> {
    match v
    case Map(m) => if k in m then Some(m[k]) else None
    case List(xs) =>
      var i := ToIndex(k);
      if 0 <= i < |xs| then Some(xs[i]) else None
    case _ => None
  }

  /** What a read of key k yields: the child, or an invalid value. */
  function Slot(v: Value, k: string): Value {
    match Find(v, k)
    case Some(x) => x
    case None => Null
  }

  /** JsonDict::value at a path below v. */
  function Get(v: Value, p: Path): Value
    decreases |p|
  {
    if p == [] then v else Get(Slot(v, p[0]), p[1..])
  }

  lemma {:induction false} GetBelowNull(p: Path)
    ensures Get(Null, p) == Null
    decreases |p|
  {
    if p != [] { GetBelowNull(p[1..]); }
  }

  lemma {:induction false} GetBelowLeaf(s: Scalar, p: Path)
    requires p != []
    ensures Get(Leaf(s), p) == Null
  {
    GetBelowNull(p[1..]);
  }

  lemma {:induction false} GetSplit(v: Value, p: Path, q: Path)
    ensures Get(v, p + q) == Get(Get(v, p), q)
    decreases |p|
  {
    if p == [] {
      assert p + q == q;
    } else {
      GetSplit(Slot(v, p[0]), p[1..], q);
      assert (p + q)[1..] == p[1..] + q;
    }
  }

  // ---------- writing ----------

  /** Whether operator[] can take the step k at v: a map refuses an index key and a list
      refuses any other key; a negative index other than -1 is undefined. */
  predicate StepOk(v: Value, k: string) {
    match v
    case Map(_) => ToIndex(k) == -1
    case List(_) => ToIndex(k) >= 0
    case _ => ToIndex(k) >= -1
  }

  predicate CanWrite(v: Value, p: Path)
    decreases |p|
  {
    p == [] || (StepOk(v, p[0]) && CanWrite(Slot(v, p[0]), p[1..]))
  }

  /** The container operator[] steps into: v itself, or the fresh one that replaces it. */
  function Open(v: Value, k: string): (c: Value)
    requires StepOk(v, k)
    ensures c.IsContainer() && StepOk(c, k)
  {
    if v.IsContainer() then v else if ToIndex(k) == -1 then Map(map[]) else List([])
  }

  function Pad(xs: seq<Value>, n: nat): (ys: seq<Value>)
    ensures |ys| == if |xs| < n then n else |xs|
    ensures forall i :: 0 <= i < |ys| ==> ys[i] == if i < |xs| then xs[i] else Null
  {
    if |xs| >= n then xs else xs + seq(n - |xs|, _ => Null)
  }

  /** Container c with the child at k replaced; a list is padded up to the index first. */
  function Put(c: Value, k: string, x: Value): (r: Value)
    requires c.IsContainer() && StepOk(c, k)
    ensures r.Map? == c.Map? && r.List? == c.List?
  {
    match c
    case Map(m) => Map(m[k := x])
    case List(xs) => List(Pad(xs, ToIndex(k) + 1)[ToIndex(k) := x])
  }

  /** JsonDict::operator[](path) = x below v. */
  function Write(v: Value, p: Path, x: Value): Value
    requires CanWrite(v, p)
    decreases |p|
  {
    if p == [] then x
    else Put(Open(v, p[0]), p[0], Write(Slot(v, p[0]), p[1..], x))
  }

  // ---------- laws ----------

  lemma PutSlot(v: Value, k: string, x: Value, k': string)
    requires StepOk(v, k)
    requires k != k' ==> Canonical(k) && Canonical(k')
    ensures Slot(Put(Open(v, k), k, x), k') == if k == k' then x else Slot(v, k')
  {}

  /** Read after write. */
  lemma {:induction false} WriteThenGet(v: Value, p: Path, x: Value)
    requires CanWrite(v, p)
    ensures Get(Write(v, p, x), p) == x
    decreases |p|
  {
    if p != [] {
      WriteThenGet(Slot(v, p[0]), p[1..], x);
      PutSlot(v, p[0], Write(Slot(v, p[0]), p[1..], x), p[0]);
    }
  }

  /** A write is invisible on every path incomparable with it, list padding included. */
  lemma {:induction false} WriteElsewhere(v: Value, p: Path, x: Value, q: Path)
    requires CanWrite(v, p)
    requires !Comparable(p, q) && CanonicalPath(p) && CanonicalPath(q)
    ensures Get(Write(v, p, x), q) == Get(v, q)
    decreases |p|
  {
    var below := Write(Slot(v, p[0]), p[1..], x);
    PutSlot(v, p[0], below, q[0]);
    if p[0] == q[0] {
      assert !Comparable(p[1..], q[1..]) by {
        assert p == [p[0]] + p[1..] && q == [q[0]] + q[1..];
      }
      WriteElsewhere(Slot(v, p[0]), p[1..], x, q[1..]);
    }
  }

  /** Above the written path there is a container, of the old kind if there was one. */
  lemma {:induction false} WriteAbove(v: Value, p: Path, x: Value, q: Path)
    requires CanWrite(v, p) && q < p
    ensures Get(Write(v, p, x), q).IsContainer()
    ensures Get(v, q).Map? ==> Get(Write(v, p, x), q).Map?
    ensures Get(v, q).List? ==> Get(Write(v, p, x), q).List?
    decreases |p|
  {
    if q != [] {
      assert q[0] == p[0] && q[1..] < p[1..];
      PutSlot(v, p[0], Write(Slot(v, p[0]), p[1..], x), p[0]);
      WriteAbove(Slot(v, p[0]), p[1..], x, q[1..]);
    }
  }

  /** The effect of writing one scalar on the set of leaves: the new leaf is there, every
      leaf on a comparable path is gone, every other leaf stays. */
  lemma WriteLeaves(v: Value, p: Path, s: Scalar, q: Path)
    requires CanWrite(v, p) && CanonicalPath(p) && CanonicalPath(q)
    ensures Get(Write(v, p, Leaf(s)), q).Leaf? <==>
              (p == q || (!Comparable(p, q) && Get(v, q).Leaf?))
    ensures p == q ==> Get(Write(v, p, Leaf(s)), q) == Leaf(s)
    ensures !Comparable(p, q) ==> Get(Write(v, p, Leaf(s)), q) == Get(v, q)
  {
    if !Comparable(p, q) {
      WriteElsewhere(v, p, Leaf(s), q);
    } else if p <= q {
      WriteThenGet(v, p, Leaf(s));
      var rest := q[|p|..];
      assert q == p + rest;
      GetSplit(Write(v, p, Leaf(s)), p, rest);
      if rest != [] { GetBelowLeaf(s, rest); } else { assert p == q; }
    } else {
      assert q < p;
      WriteAbove(v, p, Leaf(s), q);
    }
  }

  /** A write that is possible after an incomparable write was possible before it. */
  lemma {:induction false} CanWriteBefore(v: Value, p: Path, x: Value, q: Path)
    requires CanWrite(v, p) && !Comparable(p, q) && CanonicalPath(p) && CanonicalPath(q)
    requires CanWrite(Write(v, p, x), q)
    ensures CanWrite(v, q)
    decreases |p|
  {
    hide ToIndex;
    var below := Write(Slot(v, p[0]), p[1..], x);
    PutSlot(v, p[0], below, q[0]);
    if p[0] == q[0] {
      assert !Comparable(p[1..], q[1..]) by {
        assert p == [p[0]] + p[1..] && q == [q[0]] + q[1..];
      }
      CanWriteBefore(Slot(v, p[0]), p[1..], x, q[1..]);
    }
  }

  /** Where two incomparable paths part, both or neither name a list element. */
  predicate SameKind(p: Path, q: Path)
    decreases |p|
  {
    p != [] && q != [] ==>
      if p[0] == q[0] then SameKind(p[1..], q[1..])
      else (ToIndex(p[0]) >= 0) == (ToIndex(q[0]) >= 0)
  }

  /** Conversely an incomparable write of agreeing kind keeps a write possible. */
  lemma {:induction false} CanWriteAfter(v: Value, p: Path, x: Value, q: Path)
    requires CanWrite(v, p) && !Comparable(p, q) && CanonicalPath(p) && CanonicalPath(q)
    requires SameKind(p, q) && CanWrite(v, q)
    ensures CanWrite(Write(v, p, x), q)
    decreases |p|
  {
    hide ToIndex;
    var below := Write(Slot(v, p[0]), p[1..], x);
    PutSlot(v, p[0], below, q[0]);
    if p[0] == q[0] {
      assert !Comparable(p[1..], q[1..]) by {
        assert p == [p[0]] + p[1..] && q == [q[0]] + q[1..];
      }
      CanWriteAfter(Slot(v, p[0]), p[1..], x, q[1..]);
    }
  }
}
