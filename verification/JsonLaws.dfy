/** What merge, update, diff, contains, sanitized, flatten and nest do to whole documents. */
module JsonLaws {
  import opened Keys
  import opened JsonValue
  import opened JsonLeaves
  import opened JsonDoc
  import opened JsonMerge
  import opened JsonNormal
  import opened JsonDict

  function MergeMode(overwrite: bool): Mode { if overwrite then Overwrite else KeepValid }

  function Merged(a: Doc, b: Doc, overwrite: bool): Outcome {
    InsertAll(a, DocLeaves(b), MergeMode(overwrite))
  }

  lemma MergedTidy(a: Doc, b: Doc, overwrite: bool)
    requires TidyDoc(a) && TidyDoc(b)
    ensures TidyDoc(Merged(a, b, overwrite).doc)
  {
    forall e | e in DocLeaves(b) ensures e.0 != [] && SmallPath(e.0[1..]) { DocLeafPathSmall(b, e.0, e.1); }
    InsertAllTidy(a, DocLeaves(b), MergeMode(overwrite));
  }

  predicate Clear(leaves: seq<LeafEntry>, q: Path) { forall e :: e in leaves ==> !Comparable(e.0, q) }

  /** merge: the leaves of b, plus those leaves of a on no path comparable with a leaf of b. */
  lemma MergeLeaves(a: Doc, b: Doc, q: Path, s: Scalar)
    requires TidyDoc(a) && TidyDoc(b) && Merged(a, b, true).ok
    ensures (q, s) in DocLeaves(Merged(a, b, true).doc) <==>
              (q, s) in DocLeaves(b) || ((q, s) in DocLeaves(a) && Clear(DocLeaves(b), q))
  {
    var r := Merged(a, b, true).doc;
    var leaves := DocLeaves(b);
    MergedTidy(a, b, true);
    DocLeafIsGet(r, q, s);
    DocLeafIsGet(a, q, s);
    DocLeafIsGet(b, q, s);
    if DocPath(q) {
      DocLeavesApart(b);
      InsertAllLeaves(a, leaves, Overwrite, q, s);
      if DocGet(a, q) == Leaf(s) && Untouched(a, leaves, Overwrite, q) && !Clear(leaves, q) {
        var e :| e in leaves && Comparable(e.0, q);
        assert DocGet(a, e.0) == Leaf(e.1);
        LeavesIncomparable(a, e.0, q);
        assert (q, s) in leaves;
      }
      if (q, s) in leaves && DocGet(a, q) == Leaf(s) {
        forall e | e in leaves && Wanted(Overwrite, DocGet(a, e.0), e.1) ensures !Comparable(e.0, q) {
          DocLeafIsGet(b, e.0, e.1);
          if Comparable(e.0, q) { LeavesIncomparable(b, e.0, q); assert false; }
        }
        assert Untouched(a, leaves, Overwrite, q);
      }
    }
  }

  /** merge throws exactly when some leaf of b, not already held by a, meets a container of
      the other kind in a. */
  lemma MergeThrows(a: Doc, b: Doc)
    requires TidyDoc(b)
    ensures Merged(a, b, true).ok <==>
              forall e :: e in DocLeaves(b) ==> DocGet(a, e.0) == Leaf(e.1) || DocCanWrite(a, e.0)
  {
    var leaves := DocLeaves(b);
    DocLeavesApart(b);
    InsertAllOk(a, leaves, Overwrite);
    if Merged(a, b, true).ok {
      forall e | e in leaves ensures DocGet(a, e.0) == Leaf(e.1) || DocCanWrite(a, e.0) {
        if DocGet(a, e.0) != Leaf(e.1) { assert Touched(a, leaves, Overwrite, e); }
      }
    }
  }

  /** merge without overwriting takes a leaf of b only where a finds nothing valid. */
  lemma KeepingMergeLeaves(a: Doc, b: Doc, q: Path, s: Scalar)
    requires TidyDoc(a) && TidyDoc(b) && Merged(a, b, false).ok
    ensures (q, s) in DocLeaves(Merged(a, b, false).doc) <==>
              || ((q, s) in DocLeaves(b) && DocGet(a, q) == Null)
              || ((q, s) in DocLeaves(a) && forall e :: e in DocLeaves(b) && DocGet(a, e.0) == Null ==>
                  !Comparable(e.0, q))
  {
    var leaves := DocLeaves(b);
    MergedTidy(a, b, false);
    DocLeafIsGet(Merged(a, b, false).doc, q, s);
    DocLeafIsGet(a, q, s);
    DocLeafIsGet(b, q, s);
    if DocPath(q) {
      DocLeavesApart(b);
      InsertAllLeaves(a, leaves, KeepValid, q, s);
    }
  }

  /** Even without overwriting a leaf of a can be lost: it is kept unless some leaf of b lies
      strictly below it. */
  lemma KeepingMergeKeeps(a: Doc, b: Doc)
    requires TidyDoc(a) && TidyDoc(b) && Merged(a, b, false).ok
    ensures (forall x :: x in DocLeaves(a) ==> x in DocLeaves(Merged(a, b, false).doc)) <==>
            (forall x, e :: x in DocLeaves(a) && e in DocLeaves(b) ==> !(x.0 < e.0))
  {
    var r := DocLeaves(Merged(a, b, false).doc);
    if forall x :: x in DocLeaves(a) ==> x in r {
      forall x, e | x in DocLeaves(a) && e in DocLeaves(b) ensures !(x.0 < e.0) {
        KeepingMergeLeaves(a, b, x.0, x.1);
        DocLeafIsGet(a, x.0, x.1);
        if x.0 < e.0 { LeafBelowLeaf(a, x.0, e.0); }
      }
    }
    if forall x, e :: x in DocLeaves(a) && e in DocLeaves(b) ==> !(x.0 < e.0) {
      forall x | x in DocLeaves(a) ensures x in r {
        KeepingMergeLeaves(a, b, x.0, x.1);
        DocLeafIsGet(a, x.0, x.1);
        forall e | e in DocLeaves(b) && DocGet(a, e.0) == Null ensures !Comparable(e.0, x.0) {
          DocLeafIsGet(b, e.0, e.1);
          if e.0 <= x.0 { AboveLeafIsValid(a, e.0, x.0); }
        }
      }
    }
  }

  lemma AboveLeafIsValid(d: Doc, p: Path, q: Path)
    requires p != [] && p <= q && DocGet(d, q).Leaf?
    ensures DocGet(d, p) != Null
  {
    var rest := q[|p|..];
    assert q[1..] == p[1..] + rest;
    GetSplit(Top(d, p[0]), p[1..], rest);
    GetBelowNull(rest);
  }

  lemma LeafWritable(s: Scalar, p: Path)
    requires CanonicalPath(p)
    ensures CanWrite(Leaf(s), p)
  {
    if p != [] { CanWriteFresh(p[1..]); }
  }

  /** A document of scalars accepts any merge. */
  lemma FlatAccepts(a: Doc, b: Doc, overwrite: bool)
    requires TidyDoc(b) && forall k :: k in a ==> a[k].Leaf?
    ensures Merged(a, b, overwrite).ok
  {
    DocLeavesApart(b);
    forall e | e in DocLeaves(b) ensures DocCanWrite(a, e.0) {
      DocLeafIsGet(b, e.0, e.1);
      CanWriteFresh(e.0[1..]);
      if e.0[0] in a { LeafWritable(a[e.0[0]].s, e.0[1..]); }
    }
    InsertAllOk(a, DocLeaves(b), MergeMode(overwrite));
  }

  /** A document whose only leaf is lost to a merge that was told not to overwrite. */
  lemma KeepingMergeLoses()
    ensures var a: Doc := map["x" := Leaf(Int(1))];
            var b: Doc := map["x" := Map(map["y" := Leaf(Int(2))])];
            && Merged(a, b, false).ok
            && (["x"], Int(1)) in DocLeaves(a)
            && (["x"], Int(1)) !in DocLeaves(Merged(a, b, false).doc)
  {
    var a: Doc := map["x" := Leaf(Int(1))];
    var b: Doc := map["x" := Map(map["y" := Leaf(Int(2))])];
    assert TidyDoc(a) && TidyDoc(b) && ToIndex("y") == -1;
    assert DocGet(b, ["x", "y"]) == Leaf(Int(2)) by {
      assert ["x", "y"][1..] == ["y"] && ["y"][1..] == [];
      assert Get(b["x"], ["y"]) == Get(Slot(b["x"], "y"), []);
    }
    hide ToIndex, SortedKeys, InsertAll, DocLeaves;
    FlatAccepts(a, b, false);
    DocLeafIsGet(a, ["x"], Int(1));
    DocLeafIsGet(b, ["x", "y"], Int(2));
    KeepingMergeLeaves(a, b, ["x"], Int(1));
    assert ["x"] < ["x", "y"];
    LeafBelowLeaf(a, ["x"], ["x", "y"]);
  }

  /** update reports a change exactly when some leaf of b differs from what a holds there. */
  lemma UpdateReports(a: Doc, b: Doc)
    ensures Merged(a, b, true).changed <==> !Holds(a, DocLeaves(b))
  {
    InsertAllChanged(a, DocLeaves(b), Overwrite);
    if !Holds(a, DocLeaves(b)) {
      var e :| e in DocLeaves(b) && DocGet(a, e.0) != Leaf(e.1);
      assert Touched(a, DocLeaves(b), Overwrite, e);
    }
  }

  // ---------- diff ----------

  lemma ApartCons(e: LeafEntry, rest: seq<LeafEntry>)
    requires DocPath(e.0) && DocApart(rest) && forall x :: x in rest ==> Parted(e.0, x.0)
    ensures DocApart([e] + rest)
  {
    hide Parted, DocPath;
    var r := [e] + rest;
    forall i, j | 0 <= i < j < |r| ensures Parted(r[i].0, r[j].0) {
      if i == 0 { assert r[j] in rest; } else { assert r[i] == rest[i - 1] && r[j] == rest[j - 1]; }
    }
    forall i | 0 <= i < |r| ensures DocPath(r[i].0) {
      if i > 0 { assert r[i] == rest[i - 1]; }
    }
  }

  lemma {:induction false} DifferingApart(leaves: seq<LeafEntry>, e: Doc)
    requires DocApart(leaves)
    ensures DocApart(Differing(leaves, e))
    decreases |leaves|
  {
    hide Parted, DocPath, DocGet;
    if leaves != [] {
      TailApart(leaves);
      DifferingApart(leaves[1..], e);
      ApartCons(leaves[0], Differing(leaves[1..], e));
    }
  }

  function Minus(d: Doc, e: Doc): Outcome { DiffSpec(d, e, false) }

  /** operator- never throws and yields exactly the leaves of d that e does not hold. */
  lemma MinusLeaves(d: Doc, e: Doc)
    requires TidyDoc(d)
    ensures Minus(d, e).ok && TidyDoc(Minus(d, e).doc)
    ensures forall q, s :: (q, s) in DocLeaves(Minus(d, e).doc) <==> (q, s) in DocLeaves(d) && DocGet(e, q) != Leaf(s)
  {
    var leaves := Differing(DocLeaves(d), e);
    var start: Doc := map[];
    DocLeavesApart(d);
    DifferingApart(DocLeaves(d), e);
    forall x | x in leaves ensures DocCanWrite(start, x.0) && SmallPath(x.0[1..]) {
      DocLeafIsGet(d, x.0, x.1);
      CanWriteFresh(x.0[1..]);
      DocLeafPathSmall(d, x.0, x.1);
    }
    InsertAllOk(start, leaves, Always);
    InsertAllTidy(start, leaves, Always);
    var r := Minus(d, e).doc;
    forall q, s ensures (q, s) in DocLeaves(r) <==> (q, s) in DocLeaves(d) && DocGet(e, q) != Leaf(s) {
      DocLeafIsGet(r, q, s);
      DocLeafIsGet(d, q, s);
      if DocPath(q) {
        InsertAllLeaves(start, leaves, Always, q, s);
        GetBelowNull(q[1..]);
      }
    }
  }

  /** diff in both directions: where it does not throw it holds this side's changed leaves, and
      those of the other side that no changed leaf of this side meets. */
  lemma FullDiffLeaves(d: Doc, e: Doc, q: Path, s: Scalar)
    requires TidyDoc(d) && TidyDoc(e) && DiffSpec(d, e, true).ok
    ensures (q, s) in DocLeaves(DiffSpec(d, e, true).doc) <==>
              || (q, s) in Differing(DocLeaves(d), e)
              || ((q, s) in Differing(DocLeaves(e), d) && Clear(Differing(DocLeaves(d), e), q))
  {
    var first := Minus(e, d).doc;
    MinusLeaves(e, d);
    var leaves := Differing(DocLeaves(d), e);
    DocLeavesApart(d);
    DifferingApart(DocLeaves(d), e);
    forall x | x in leaves ensures x.0 != [] && SmallPath(x.0[1..]) { DocLeafPathSmall(d, x.0, x.1); }
    InsertAllTidy(first, leaves, Always);
    var r := InsertAll(first, leaves, Always).doc;
    DocLeafIsGet(r, q, s);
    DocLeafIsGet(first, q, s);
    DocLeafIsGet(d, q, s);
    if DocPath(q) { InsertAllLeaves(first, leaves, Always, q, s); }
  }

  lemma {:induction false} SameKindBack(p: Path, q: Path)
    ensures SameKind(p, q) == SameKind(q, p)
    decreases |p|
  {
    hide ToIndex;
    if p != [] && q != [] && p[0] == q[0] { SameKindBack(p[1..], q[1..]); }
  }

  /** A normal document takes a leaf at a path exactly when the path is related to all its leaves. */
  lemma DocCanWriteWhere(d: Doc, p: Path)
    requires NormalDoc(d) && TidyDoc(d) && DocPath(p)
    ensures DocCanWrite(d, p) <==> forall y :: y in DocLeaves(d) ==> Related(p, y.0)
  {
    hide ToIndex, SortedKeys, CanWrite, Full;
    CanWriteWhere(Top(d, p[0]), p[1..]);
    if DocCanWrite(d, p) {
      forall y | y in DocLeaves(d) ensures Related(p, y.0) {
        DocLeafIsGet(d, y.0, y.1);
        SameKindBack(p[1..], y.0[1..]);
      }
    }
    if forall y :: y in DocLeaves(d) ==> Related(p, y.0) {
      forall q | CanonicalPath(q) && Get(Top(d, p[0]), q).Leaf? ensures SameKind(p[1..], q) {
        var below, s := [p[0]] + q, Get(Top(d, p[0]), q).s;
        assert below[1..] == q;
        DocLeafIsGet(d, below, s);
        assert Related(p, (below, s).0);
      }
    }
  }

  /** The two-sided diff throws exactly when a changed leaf of one side parts from a changed leaf of
      the other at a map key on one side and a list index on the other. */
  lemma FullDiffThrows(d: Doc, e: Doc)
    requires TidyDoc(d) && TidyDoc(e)
    ensures DiffSpec(d, e, true).ok <==>
            forall x, y :: x in Differing(DocLeaves(d), e) && y in Differing(DocLeaves(e), d) ==> Related(x.0, y.0)
  {
    var first, leaves := Minus(e, d).doc, Differing(DocLeaves(d), e);
    MinusLeaves(e, d);
    MinusNormal(e, d);
    DocLeavesApart(d);
    DifferingApart(DocLeaves(d), e);
    InsertAllOk(first, leaves, Always);
    hide Related, DocCanWrite, DocLeaves, InsertAll, NormalDoc, TidyDoc, DocApart;
    forall x | x in leaves
      ensures DocCanWrite(first, x.0) <==> forall y :: y in Differing(DocLeaves(e), d) ==> Related(x.0, y.0)
    {
      DocLeafIsGet(d, x.0, x.1);
      DocCanWriteWhere(first, x.0);
      assert forall y: LeafEntry :: y in DocLeaves(first) <==> (y.0, y.1) in DocLeaves(first);
    }
  }

  lemma MinusNormal(d: Doc, e: Doc)
    ensures NormalDoc(Minus(d, e).doc)
  {
    InsertAllNormal(map[], Differing(DocLeaves(d), e), Always);
  }

  // ---------- sanitized, flatten, nest ----------

  /** sanitized is the pruned document, and equals the document exactly when that is normal. */
  lemma SanitizedIsPruned(d: Doc)
    requires TidyDoc(d)
    ensures var r := InsertAll(map[], DocLeaves(d), Always);
            r.ok && r.doc == PruneDoc(d) && (r.doc == d <==> NormalDoc(d))
  {
    DocLeavesApart(d);
    RebuildIsPrune(d, DocLeaves(d));
    PruneDocLaw(d);
  }

  /** No key on the way to a leaf holds the separator. */
  ghost predicate Unbroken(d: Doc, sep: char) {
    forall e :: e in DocLeaves(d) ==> forall i :: 0 <= i < |e.0| ==> sep !in e.0[i]
  }

  lemma SplitJoinPath(p: Path, sep: char)
    requires p != [] && forall i :: 0 <= i < |p| ==> sep !in p[i]
    ensures Split(Join(p, sep), sep) == p
  {
    SplitJoin(p, sep);
  }

  ghost predicate FlatSound(acc: Doc, leaves: seq<LeafEntry>, sep: char) {
    forall k :: k in acc ==> acc[k].Leaf? && (Split(k, sep), acc[k].s) in leaves
  }

  ghost predicate FlatComplete(acc: Doc, leaves: seq<LeafEntry>, sep: char) {
    forall i :: 0 <= i < |leaves| ==> FlatHas(acc, leaves[i], sep)
  }

  predicate FlatHas(acc: Doc, e: LeafEntry, sep: char) {
    Join(e.0, sep) in acc && acc[Join(e.0, sep)] == Leaf(e.1)
  }

  lemma JoinsDiffer(all: seq<LeafEntry>, i: nat, n: nat, sep: char)
    requires i < n < |all| && DocApart(all)
    requires forall e :: e in all ==> e.0 != [] && forall j :: 0 <= j < |e.0| ==> sep !in e.0[j]
    ensures Join(all[i].0, sep) != Join(all[n].0, sep)
  {
    assert Parted(all[i].0, all[n].0);
    assert all[i] in all && all[n] in all;
    SplitJoinPath(all[i].0, sep);
    SplitJoinPath(all[n].0, sep);
  }

  lemma {:induction false} FlattenSound(all: seq<LeafEntry>, n: nat, sep: char, acc: Doc)
    requires n <= |all|
    requires forall e :: e in all ==> e.0 != [] && forall i :: 0 <= i < |e.0| ==> sep !in e.0[i]
    requires FlatSound(acc, all, sep)
    ensures FlatSound(FlattenLeaves(all[n..], sep, acc), all, sep)
    decreases |all| - n
  {
    hide Join, Split;
    if n < |all| {
      var (p, s) := all[n];
      assert all[n] in all;
      SplitJoinPath(p, sep);
      FlattenSound(all, n + 1, sep, acc[Join(p, sep) := Leaf(s)]);
      assert all[n..][1..] == all[n + 1..];
    }
  }

  lemma {:induction false} FlattenComplete(all: seq<LeafEntry>, n: nat, sep: char, acc: Doc)
    requires n <= |all| && DocApart(all)
    requires forall e :: e in all ==> e.0 != [] && forall i :: 0 <= i < |e.0| ==> sep !in e.0[i]
    requires FlatComplete(acc, all[..n], sep)
    ensures FlatComplete(FlattenLeaves(all[n..], sep, acc), all, sep)
    decreases |all| - n
  {
    hide Join, Split, DocApart;
    if n == |all| {
      assert all[..n] == all;
    } else {
      var (p, s) := all[n];
      var acc' := acc[Join(p, sep) := Leaf(s)];
      var upto := all[..n + 1];
      forall i | 0 <= i < |upto| ensures FlatHas(acc', upto[i], sep) {
        if i < n {
          assert FlatHas(acc, all[..n][i], sep);
          JoinsDiffer(all, i, n, sep);
        }
      }
      FlattenComplete(all, n + 1, sep, acc');
      assert all[n..][1..] == all[n + 1..];
    }
  }

  /** The flat document holds each leaf under its joined path, and nothing else. */
  lemma FlattenHoldsLeaves(d: Doc, sep: char)
    requires TidyDoc(d) && Unbroken(d, sep)
    ensures FlatSound(Flatten(d, sep), DocLeaves(d), sep) && FlatComplete(Flatten(d, sep), DocLeaves(d), sep)
  {
    hide FlatSound, FlatComplete, DocApart, DocLeaves, TidyDoc;
    var all := DocLeaves(d);
    DocLeavesApart(d);
    forall e | e in all ensures e.0 != [] {
      DocLeafIsGet(d, e.0, e.1);
    }
    assert all[0..] == all && all[..0] == [];
    NothingFlat(all, sep);
    FlattenSound(all, 0, sep, map[]);
    FlattenComplete(all, 0, sep, map[]);
  }

  lemma NothingFlat(all: seq<LeafEntry>, sep: char)
    ensures FlatSound(map[], all, sep) && FlatComplete(map[], [], sep)
  {}

  /** The leaf list nest inserts, for a flat document visited in the key order ks. */
  function Unflattened(flat: Doc, ks: seq<string>, sep: char): (r: seq<LeafEntry>)
    requires forall k :: k in ks ==> k in flat && flat[k].Leaf?
    ensures |r| == |ks|
    ensures forall i :: 0 <= i < |ks| ==> ks[i] in ks && r[i] == (Split(ks[i], sep), flat[ks[i]].s)
  {
    if ks == [] then []
    else
      assert ks[0] in ks;
      [(Split(ks[0], sep), flat[ks[0]].s)] + Unflattened(flat, ks[1..], sep)
  }

  lemma {:induction false} NestIsInsert(flat: Doc, ks: seq<string>, sep: char, acc: Doc)
    requires forall k :: k in ks ==> k in flat && flat[k].Leaf?
    requires InsertAll(acc, Unflattened(flat, ks, sep), Always).ok
    ensures NestKeys(flat, ks, sep, acc) == Some(InsertAll(acc, Unflattened(flat, ks, sep), Always).doc)
    decreases |ks|
  {
    if ks != [] {
      assert ks[0] in ks;
      var leaves := Unflattened(flat, ks, sep);
      assert leaves[1..] == Unflattened(flat, ks[1..], sep);
      NestIsInsert(flat, ks[1..], sep, DocWrite(acc, leaves[0].0, Leaf(leaves[0].1)));
    }
  }

  /** flatten then nest rebuilds what sanitized gives, although the leaves come back in the
      order of their joined keys. */
  lemma NestFlattenIsSanitized(d: Doc, sep: char)
    requires TidyDoc(d) && Unbroken(d, sep)
    ensures Nest(Flatten(d, sep), sep) == Some(InsertAll(map[], DocLeaves(d), Always).doc)
  {
    var all := DocLeaves(d);
    var flat := Flatten(d, sep);
    hide FlatSound, FlatComplete, DocApart, Unbroken;
    FlattenHoldsLeaves(d, sep);
    DocLeavesApart(d);
    FlatAllLeaves(flat, all, sep);
    var ks := SortedKeys(flat.Keys);
    var leaves := Unflattened(flat, ks, sep);
    UnflattenedLeaves(d, flat, ks, sep);
    RebuildIsPrune(d, leaves);
    RebuildIsPrune(d, all);
    NestIsInsert(flat, ks, sep, map[]);
  }

  lemma UnbrokenSplit(d: Doc, e: LeafEntry, sep: char)
    requires TidyDoc(d) && Unbroken(d, sep) && e in DocLeaves(d)
    ensures Split(Join(e.0, sep), sep) == e.0
  {
    DocLeafIsGet(d, e.0, e.1);
    SplitJoinPath(e.0, sep);
  }

  /** Different members of all. */
  ghost predicate Selection(leaves: seq<LeafEntry>, all: seq<LeafEntry>) {
    && (forall i :: 0 <= i < |leaves| ==> leaves[i] in all)
    && (forall i, j :: 0 <= i < j < |leaves| ==> leaves[i] != leaves[j])
  }

  lemma UnflattenedSound(all: seq<LeafEntry>, flat: Doc, ks: seq<string>, sep: char)
    requires FlatSound(flat, all, sep)
    requires forall k :: k in ks ==> k in flat
    requires forall i, j :: 0 <= i < j < |ks| ==> ks[i] != ks[j]
    ensures Selection(Unflattened(flat, ks, sep), all)
  {
    hide Join, Split;
    var leaves := Unflattened(flat, ks, sep);
    forall i, j | 0 <= i < j < |leaves| ensures leaves[i] != leaves[j] {
      JoinSplit(ks[i], sep);
      JoinSplit(ks[j], sep);
    }
  }

  lemma UnflattenedHas(flat: Doc, ks: seq<string>, sep: char, e: LeafEntry)
    requires forall k :: k in ks ==> k in flat && flat[k].Leaf?
    requires FlatHas(flat, e, sep) && Join(e.0, sep) in ks && Split(Join(e.0, sep), sep) == e.0
    ensures e in Unflattened(flat, ks, sep)
  {
    hide Join, Split;
    var i :| 0 <= i < |ks| && ks[i] == Join(e.0, sep);
    assert Unflattened(flat, ks, sep)[i] == e;
  }

  lemma UnflattenedMember(d: Doc, flat: Doc, ks: seq<string>, sep: char, e: LeafEntry)
    requires TidyDoc(d) && Unbroken(d, sep) && FlatSound(flat, DocLeaves(d), sep) &&
             FlatComplete(flat, DocLeaves(d), sep)
    requires forall k :: k in ks <==> k in flat
    requires forall i, j :: 0 <= i < j < |ks| ==> ks[i] != ks[j]
    ensures e in Unflattened(flat, ks, sep) <==> e in DocLeaves(d)
  {
    if e in DocLeaves(d) {
      hide Join, Split, DocLeaves, Unbroken, FlatSound, Unflattened;
      var n :| 0 <= n < |DocLeaves(d)| && DocLeaves(d)[n] == e;
      assert FlatHas(flat, DocLeaves(d)[n], sep);
      UnbrokenSplit(d, e, sep);
      UnflattenedHas(flat, ks, sep, e);
    } else if e in Unflattened(flat, ks, sep) {
      UnflattenedSound(DocLeaves(d), flat, ks, sep);
    }
  }

  lemma FlatAllLeaves(flat: Doc, leaves: seq<LeafEntry>, sep: char)
    requires FlatSound(flat, leaves, sep)
    ensures forall k :: k in flat ==> flat[k].Leaf?
  {}

  lemma UnflattenedApart(d: Doc, flat: Doc, ks: seq<string>, sep: char)
    requires TidyDoc(d) && FlatSound(flat, DocLeaves(d), sep)
    requires forall k :: k in ks ==> k in flat && flat[k].Leaf?
    requires forall i, j :: 0 <= i < j < |ks| ==> ks[i] != ks[j]
    ensures DocApart(Unflattened(flat, ks, sep))
  {
    hide *;
    UnflattenedSound(DocLeaves(d), flat, ks, sep);
    var leaves := Unflattened(flat, ks, sep);
    DocLeavesApart(d);
    ReorderedApart(DocLeaves(d), leaves);
  }

  lemma UnflattenedLeaves(d: Doc, flat: Doc, ks: seq<string>, sep: char)
    requires TidyDoc(d) && Unbroken(d, sep) && FlatSound(flat, DocLeaves(d), sep) &&
             FlatComplete(flat, DocLeaves(d), sep)
    requires forall k :: k in flat ==> flat[k].Leaf?
    requires forall k :: k in ks <==> k in flat
    requires forall i, j :: 0 <= i < j < |ks| ==> ks[i] != ks[j]
    ensures LeavesOf(Unflattened(flat, ks, sep), d)
  {
    hide FlatSound, FlatComplete, Unbroken, Join, Split, DocApart, Unflattened, DocLeaves;
    UnflattenedApart(d, flat, ks, sep);
    var leaves := Unflattened(flat, ks, sep);
    forall e ensures e in leaves <==> e in DocLeaves(d) {
      UnflattenedMember(d, flat, ks, sep, e);
    }
  }

  /** Any duplicate-free selection from an apart list is apart. */
  lemma ReorderedApart(all: seq<LeafEntry>, leaves: seq<LeafEntry>)
    requires DocApart(all) && Selection(leaves, all)
    ensures DocApart(leaves)
  {
    hide Parted, DocPath;
    forall i | 0 <= i < |leaves| ensures DocPath(leaves[i].0) {
      assert leaves[i] in all;
      var a :| 0 <= a < |all| && all[a] == leaves[i];
    }
    forall i, j | 0 <= i < j < |leaves| ensures Parted(leaves[i].0, leaves[j].0) {
      assert leaves[i] in all && leaves[j] in all;
      var a :| 0 <= a < |all| && all[a] == leaves[i];
      var b :| 0 <= b < |all| && all[b] == leaves[j];
      if b < a { PartedSymmetric(all[b].0, all[a].0); }
    }
  }

  lemma PartedSymmetric(p: Path, q: Path)
    requires Parted(p, q)
    ensures Parted(q, p)
  {}
}
