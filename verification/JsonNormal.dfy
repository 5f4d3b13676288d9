/** Trees without nulls to spare or empty containers. Such a tree is determined by its
    leaves, so inserting the same leaves in any order builds the same tree. */
module JsonNormal {
  import opened Keys
  import opened JsonValue
  import opened JsonLeaves
  import opened JsonDoc
  import opened JsonMerge

  /** Every container below has a child, every list ends in a child that is not null. */
  ghost predicate Full(v: Value) {
    match v
    case Null => false
    case Leaf(_) => true
    case Map(m) => m != map[] && forall k :: k in m ==> Full(m[k])
    case List(xs) =>
      && xs != [] && xs[|xs| - 1] != Null
      && forall i :: 0 <= i < |xs| && xs[i] != Null ==> Full(xs[i])
  }

  ghost predicate FullOrNull(v: Value) { v == Null || Full(v) }

  ghost predicate NormalDoc(d: Doc) { forall k :: k in d ==> Full(d[k]) }

  // ---------- a full tree is determined by its leaves ----------

  lemma {:induction false} FullHasLeaf(v: Value) returns (p: Path)
    requires Full(v) && Tidy(v)
    ensures CanonicalPath(p) && Get(v, p).Leaf?
    ensures v.Map? ==> p != [] && ToIndex(p[0]) == -1
    ensures v.List? ==> p != [] && ToIndex(p[0]) == |v.xs| - 1
    decreases v
  {
    hide ToIndex;
    match v
    case Leaf(_) => p := [];
    case Map(m) =>
      var k :| k in m;
      var q := FullHasLeaf(m[k]);
      p := [k] + q;
    case List(xs) =>
      var q := FullHasLeaf(xs[|xs| - 1]);
      IndexKeyIndex(|xs| - 1);
      p := [IndexKey(|xs| - 1)] + q;
  }

  ghost predicate SameLeaves(v: Value, w: Value) {
    forall p :: CanonicalPath(p) && (Get(v, p).Leaf? || Get(w, p).Leaf?) ==> Get(v, p) == Get(w, p)
  }

  lemma SameLeavesBelow(v: Value, w: Value, k: string)
    requires SameLeaves(v, w) && Canonical(k)
    ensures SameLeaves(Slot(v, k), Slot(w, k))
  {
    forall p | CanonicalPath(p) && (Get(Slot(v, k), p).Leaf? || Get(Slot(w, k), p).Leaf?)
      ensures Get(Slot(v, k), p) == Get(Slot(w, k), p)
    {
      var q := [k] + p;
      assert q[1..] == p && CanonicalPath(q);
      assert Get(v, q) == Get(w, q);
    }
  }

  lemma SameShape(v: Value, w: Value)
    requires FullOrNull(v) && Full(w) && Tidy(v) && Tidy(w) && SameLeaves(v, w)
    ensures w.Map? ==> v.Map? && w.m.Keys <= v.m.Keys
    ensures w.List? ==> v.List? && |w.xs| <= |v.xs|
    ensures w.Leaf? ==> v == w
  {
    hide ToIndex;
    var p := FullHasLeaf(w);
    assert Get(v, p) == Get(w, p);
    if w.Leaf? {
      assert Get(v, []) == Get(w, []);
    } else {
      assert p == [p[0]] + p[1..];
      if Find(v, p[0]).None? { GetBelowNull(p[1..]); assert false; }
      if w.Map? {
        forall k | k in w.m ensures k in v.m {
          var q := FullHasLeaf(w.m[k]);
          assert ([k] + q)[1..] == q && CanonicalPath([k] + q);
          assert Get(w, [k] + q) == Get(v, [k] + q);
          if k !in v.m { GetBelowNull(q); assert false; }
        }
      }
    }
  }

  lemma {:induction false} FullDetermined(v: Value, w: Value)
    requires FullOrNull(v) && FullOrNull(w) && Tidy(v) && Tidy(w) && SameLeaves(v, w)
    ensures v == w
    decreases v
  {
    hide ToIndex;
    if v != Null { SameShape(w, v); }
    if w != Null { SameShape(v, w); }
    match v
    case Null =>
    case Leaf(_) =>
    case Map(m) =>
      forall k | k in m ensures m[k] == w.m[k] {
        SameLeavesBelow(v, w, k);
        FullDetermined(m[k], w.m[k]);
      }
    case List(xs) =>
      forall i | 0 <= i < |xs| ensures xs[i] == w.xs[i] {
        IndexKeyIndex(i);
        SameLeavesBelow(v, w, IndexKey(i));
        FullDetermined(xs[i], w.xs[i]);
      }
      assert xs == w.xs;
  }

  ghost predicate SameDocLeaves(d: Doc, e: Doc) {
    forall p :: DocPath(p) && (DocGet(d, p).Leaf? || DocGet(e, p).Leaf?) ==> DocGet(d, p) == DocGet(e, p)
  }

  lemma TopSame(d: Doc, e: Doc, k: string)
    requires SameDocLeaves(d, e)
    ensures SameLeaves(Top(d, k), Top(e, k))
  {
    forall p | CanonicalPath(p) && (Get(Top(d, k), p).Leaf? || Get(Top(e, k), p).Leaf?)
      ensures Get(Top(d, k), p) == Get(Top(e, k), p)
    {
      var q := [k] + p;
      assert q[1..] == p;
      assert DocGet(d, q) == DocGet(e, q);
    }
  }

  /** Two normal documents with the same leaves are the same document. */
  lemma NormalDetermined(d: Doc, e: Doc)
    requires NormalDoc(d) && NormalDoc(e) && TidyDoc(d) && TidyDoc(e) && SameDocLeaves(d, e)
    ensures d == e
  {
    forall k ensures Top(d, k) == Top(e, k) {
      TopSame(d, e, k);
      FullDetermined(Top(d, k), Top(e, k));
    }
    forall k ensures k in d <==> k in e { assert Top(d, k) == Top(e, k); }
    forall k | k in d ensures d[k] == e[k] { assert Top(d, k) == Top(e, k); }
  }

  // ---------- pruning ----------

  function DropNulls(xs: seq<Value>): (ys: seq<Value>)
    ensures ys <= xs
    ensures forall i :: |ys| <= i < |xs| ==> xs[i] == Null
    ensures ys != [] ==> ys[|ys| - 1] != Null
  {
    if xs != [] && xs[|xs| - 1] == Null then DropNulls(xs[..|xs| - 1]) else xs
  }

  /** The tree without null map entries, trailing nulls in lists and empty containers. */
  function Prune(v: Value): Value {
    match v
    case Map(m) =>
      var kept := map k | k in m && Prune(m[k]) != Null :: Prune(m[k]);
      if kept == map[] then Null else Map(kept)
    case List(xs) =>
      var kept := DropNulls(seq(|xs|, i requires 0 <= i < |xs| => Prune(xs[i])));
      if kept == [] then Null else List(kept)
    case _ => v
  }

  function PruneDoc(d: Doc): Doc { map k | k in d && Prune(d[k]) != Null :: Prune(d[k]) }

  lemma {:induction false} PruneFull(v: Value)
    ensures FullOrNull(Prune(v))
    ensures Tidy(v) ==> Tidy(Prune(v))
    decreases v
  {
    hide ToIndex;
    match v
    case Map(m) => forall k | k in m { PruneFull(m[k]); }
    case List(xs) => forall i | 0 <= i < |xs| { PruneFull(xs[i]); }
    case _ =>
  }

  lemma PruneSlot(v: Value, k: string)
    ensures Slot(Prune(v), k) == Prune(Slot(v, k))
  {
    hide ToIndex;
    match v
    case Map(m) =>
      var kept := map k | k in m && Prune(m[k]) != Null :: Prune(m[k]);
      if k in m && Prune(m[k]) != Null { assert k in kept; }
    case List(xs) =>
      var all := seq(|xs|, i requires 0 <= i < |xs| => Prune(xs[i]));
      var kept := DropNulls(all);
      var i := ToIndex(k);
      if 0 <= i < |xs| { assert all[i] == Prune(xs[i]); }
    case _ =>
  }

  lemma {:induction false} PruneGet(v: Value, p: Path)
    ensures Get(Prune(v), p) == Prune(Get(v, p))
    decreases |p|
  {
    if p != [] {
      PruneSlot(v, p[0]);
      PruneGet(Slot(v, p[0]), p[1..]);
    }
  }

  lemma PruneLeaf(v: Value, s: Scalar)
    requires Prune(v) == Leaf(s)
    ensures v == Leaf(s)
  {}

  /** Pruning keeps every leaf, and leaves alone exactly the normal documents. */
  lemma PruneDocLaw(d: Doc)
    requires TidyDoc(d)
    ensures NormalDoc(PruneDoc(d)) && TidyDoc(PruneDoc(d)) && SameDocLeaves(PruneDoc(d), d)
    ensures PruneDoc(d) == d <==> NormalDoc(d)
  {
    var e := PruneDoc(d);
    forall k | k in d ensures FullOrNull(Prune(d[k])) && Tidy(Prune(d[k])) { PruneFull(d[k]); }
    forall p | DocPath(p) && (DocGet(d, p).Leaf? || DocGet(e, p).Leaf?)
      ensures DocGet(e, p) == DocGet(d, p)
    {
      assert Top(e, p[0]) == Prune(Top(d, p[0]));
      PruneGet(Top(d, p[0]), p[1..]);
      if DocGet(e, p).Leaf? { PruneLeaf(DocGet(d, p), DocGet(e, p).s); }
    }
    if NormalDoc(d) { NormalDetermined(e, d); }
  }

  // ---------- building from leaves ----------

  lemma PutFull(v: Value, k: string, x: Value)
    requires FullOrNull(v) && StepOk(v, k) && Full(x)
    ensures Full(Put(Open(v, k), k, x))
  {
    hide ToIndex;
    match Open(v, k)
    case Map(m) =>
      var m' := m[k := x];
      assert k in m';
      forall j | j in m' ensures Full(m'[j]) { if j != k { assert v.m[j] == m'[j]; } }
    case List(xs) =>
      var ys := Pad(xs, ToIndex(k) + 1)[ToIndex(k) := x];
      forall i | 0 <= i < |ys| && ys[i] != Null ensures Full(ys[i]) {
        if i != ToIndex(k) { assert ys[i] == xs[i] && v.xs[i] == xs[i]; }
      }
  }

  lemma {:induction false} WriteFull(v: Value, p: Path, s: Scalar)
    requires FullOrNull(v) && CanWrite(v, p)
    ensures Full(Write(v, p, Leaf(s)))
    decreases |p|
  {
    hide ToIndex;
    if p != [] {
      WriteFull(Slot(v, p[0]), p[1..], s);
      PutFull(v, p[0], Write(Slot(v, p[0]), p[1..], Leaf(s)));
    }
  }

  lemma {:induction false} InsertAllNormal(d: Doc, leaves: seq<LeafEntry>, mode: Mode)
    requires NormalDoc(d)
    ensures NormalDoc(InsertAll(d, leaves, mode).doc)
    decreases |leaves|
  {
    if leaves != [] {
      var (p, s) := leaves[0];
      if Wanted(mode, DocGet(d, p), s) && DocCanWrite(d, p) {
        WriteFull(Top(d, p[0]), p[1..], s);
        InsertAllNormal(DocWrite(d, p, Leaf(s)), leaves[1..], mode);
      } else if !Wanted(mode, DocGet(d, p), s) {
        InsertAllNormal(d, leaves[1..], mode);
      }
    }
  }

  lemma {:induction false} CanWriteFresh(p: Path)
    requires CanonicalPath(p)
    ensures CanWrite(Null, p)
    decreases |p|
  {
    if p != [] { CanWriteFresh(p[1..]); }
  }

  /** Path p parts from every leaf of v at a container of one kind, if it parts from it at all. */
  ghost predicate Agrees(v: Value, p: Path) {
    forall q :: CanonicalPath(q) && Get(v, q).Leaf? ==> SameKind(p, q)
  }

  lemma SlotFull(v: Value, k: string)
    requires Full(v) && Tidy(v) && v.IsContainer()
    ensures FullOrNull(Slot(v, k)) && Tidy(Slot(v, k))
    ensures Slot(v, k) != Null ==> (ToIndex(k) >= 0 <==> v.List?)
  {
    hide ToIndex;
  }

  lemma AgreesBelow(v: Value, p: Path)
    requires Full(v) && Tidy(v) && v.IsContainer() && p != [] && CanonicalPath(p) && (ToIndex(p[0]) >= 0 <==> v.List?)
    ensures Agrees(v, p) <==> Agrees(Slot(v, p[0]), p[1..])
  {
    hide ToIndex;
    var c := Slot(v, p[0]);
    if Agrees(v, p) {
      forall q | CanonicalPath(q) && Get(c, q).Leaf? ensures SameKind(p[1..], q) {
        var below := [p[0]] + q;
        assert below[1..] == q && CanonicalPath(below) && Get(v, below).Leaf?;
      }
    }
    if Agrees(c, p[1..]) {
      forall q | CanonicalPath(q) && Get(v, q).Leaf? ensures SameKind(p, q) {
        if Slot(v, q[0]) == Null { GetBelowNull(q[1..]); }
        SlotFull(v, q[0]);
        if q[0] == p[0] { assert Get(c, q[1..]).Leaf?; }
      }
    }
  }

  /** A full tree can be written at a path exactly when the path agrees with all its leaves. */
  lemma {:induction false} CanWriteWhere(v: Value, p: Path)
    requires FullOrNull(v) && Tidy(v) && CanonicalPath(p)
    ensures CanWrite(v, p) <==> Agrees(v, p)
    decreases |p|
  {
    hide ToIndex;
    if p == [] {
    } else if v.IsContainer() {
      var q := FullHasLeaf(v);
      if ToIndex(p[0]) >= 0 <==> v.List? {
        AgreesBelow(v, p);
        SlotFull(v, p[0]);
        hide Agrees, Full, Tidy;
        CanWriteWhere(Slot(v, p[0]), p[1..]);
      } else {
        assert !SameKind(p, q);
      }
    } else {
      CanWriteFresh(p[1..]);
      forall q | CanonicalPath(q) && Get(v, q).Leaf? ensures SameKind(p, q) {
        if q != [] { BelowNothing(v, q); }
      }
    }
  }

  lemma BelowNothing(v: Value, q: Path)
    requires !v.IsContainer() && q != []
    ensures Get(v, q) == Null
  {
    GetBelowNull(q[1..]);
  }

  /** A leaf list taken from a document, in any order. */
  ghost predicate LeavesOf(leaves: seq<LeafEntry>, d: Doc) {
    DocApart(leaves) && forall e :: e in leaves <==> e in DocLeaves(d)
  }

  /** Inserting the leaves of a document into an empty one, in any order, never throws and
      yields the pruned document. */
  lemma RebuildIsPrune(d: Doc, leaves: seq<LeafEntry>)
    requires TidyDoc(d) && LeavesOf(leaves, d)
    ensures InsertAll(map[], leaves, Always).ok
    ensures InsertAll(map[], leaves, Always).doc == PruneDoc(d)
  {
    var start: Doc := map[];
    forall e | Touched(start, leaves, Always, e) ensures DocCanWrite(start, e.0) {
      DocLeafIsGet(d, e.0, e.1);
      CanWriteFresh(e.0[1..]);
    }
    InsertAllOk(start, leaves, Always);
    var r := InsertAll(start, leaves, Always).doc;
    InsertAllNormal(start, leaves, Always);
    forall e | e in leaves ensures e.0 != [] && SmallPath(e.0[1..]) { DocLeafPathSmall(d, e.0, e.1); }
    InsertAllTidy(start, leaves, Always);
    PruneDocLaw(d);
    forall p, s | DocPath(p) ensures DocGet(r, p) == Leaf(s) <==> DocGet(d, p) == Leaf(s) {
      InsertAllLeaves(start, leaves, Always, p, s);
      DocLeafIsGet(d, p, s);
      GetBelowNull(p[1..]);
    }
    forall p | DocPath(p) && (DocGet(r, p).Leaf? || DocGet(PruneDoc(d), p).Leaf?)
      ensures DocGet(r, p) == DocGet(PruneDoc(d), p)
    {
      if DocGet(r, p).Leaf? { assert DocGet(d, p) == Leaf(DocGet(r, p).s); }
    }
    NormalDetermined(r, PruneDoc(d));
  }
}
