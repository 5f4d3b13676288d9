/** What nest does to the entries of a document: nested maps, lists, and when it leaves a document alone. */
module JsonNest {
  import opened Keys
  import opened JsonValue
  import opened JsonLeaves
  import opened JsonDoc
  import opened JsonNormal
  import opened JsonDict

  // ---------- one entry ----------

  /** A map is opened when it has a leaf; w is what nest makes of it. */
  ghost predicate MapNested(m: Doc, sep: char, w: Value) {
    if DocLeaves(m) == [] then w == Map(m) else w.Map? && Nest(m, sep) == Some(w.m)
  }

  ghost predicate MapNests(m: Doc, sep: char) { DocLeaves(m) == [] || Nest(m, sep).Some? }

  /** What nest makes of the value of an entry: a map with a leaf becomes its own nest, and so does each
      such map that is an element of a list; everything else stays, at its place. */
  ghost predicate Nested(v: Value, sep: char, w: Value) {
    match v
    case Map(m) => MapNested(m, sep, w)
    case List(xs) =>
      && w.List? && |w.xs| == |xs|
      && forall i :: 0 <= i < |xs| ==> if xs[i].Map? then MapNested(xs[i].m, sep, w.xs[i]) else w.xs[i] == xs[i]
    case _ => w == v
  }

  /** None of those nests throws. */
  ghost predicate Nests(v: Value, sep: char) {
    match v
    case Map(m) => MapNests(m, sep)
    case List(xs) => forall i :: 0 <= i < |xs| && xs[i].Map? ==> MapNests(xs[i].m, sep)
    case _ => true
  }

  lemma MapNestIs(m: Doc, sep: char)
    ensures NestValue(Map(m), sep).Some? <==> MapNests(m, sep)
    ensures forall w :: MapNested(m, sep, w) <==> NestValue(Map(m), sep) == Some(w)
  {
    hide DocLeaves, NestKeys, SortedKeys;
  }

  lemma {:induction false} NestItemsIs(xs: seq<Value>, i: nat, sep: char)
    requires i <= |xs|
    ensures NestItems(xs, i, sep).Some? <==> forall j :: i <= j < |xs| && xs[j].Map? ==> MapNests(xs[j].m, sep)
    ensures NestItems(xs, i, sep).Some? ==>
              var ys := NestItems(xs, i, sep).value;
              && |ys| == |xs| - i
              && forall j :: i <= j < |xs| ==>
                   if xs[j].Map? then MapNested(xs[j].m, sep, ys[j - i]) else ys[j - i] == xs[j]
    decreases |xs| - i
  {
    hide MapNests, MapNested, NestValue;
    if i < |xs| {
      if xs[i].Map? { MapNestIs(xs[i].m, sep); }
      NestItemsIs(xs, i + 1, sep);
    }
  }

  lemma NestValueIs(v: Value, sep: char)
    ensures NestValue(v, sep).Some? <==> Nests(v, sep)
    ensures NestValue(v, sep).Some? ==> Nested(v, sep, NestValue(v, sep).value)
  {
    hide MapNests, MapNested;
    match v
    case Map(m) => MapNestIs(m, sep);
    case List(xs) =>
      hide NestItems;
      NestItemsIs(xs, 0, sep);
    case _ =>
  }

  // ---------- all entries ----------

  lemma DocWriteElsewhere(d: Doc, p: Path, x: Value, q: Path)
    requires DocCanWrite(d, p) && DocPath(p) && DocPath(q) && !Comparable(p, q)
    ensures DocGet(DocWrite(d, p, x), q) == DocGet(d, q)
  {
    TailComparable(p, q);
    if p[0] == q[0] { WriteElsewhere(Top(d, p[0]), p[1..], x, q[1..]); }
  }

  lemma DocWriteThenGet(d: Doc, p: Path, x: Value)
    requires DocCanWrite(d, p)
    ensures DocGet(DocWrite(d, p, x), p) == x
  {
    WriteThenGet(Top(d, p[0]), p[1..], x);
  }

  /** The keys that are left do not touch what lies at a path incomparable with them. */
  lemma {:induction false} NestKeysElsewhere(m: Doc, ks: seq<string>, sep: char, acc: Doc, q: Path)
    requires (forall k :: k in ks ==> k in m) && NestKeys(m, ks, sep, acc).Some? && DocPath(q)
    requires forall k :: k in ks ==> DocPath(Split(k, sep)) && !Comparable(Split(k, sep), q)
    ensures DocGet(NestKeys(m, ks, sep, acc).value, q) == DocGet(acc, q)
    decreases |ks|
  {
    hide NestValue, NestKeys, Split, DocPath, Comparable, DocGet, DocWrite, DocCanWrite;
    if ks == [] {
      NestDone(m, sep, acc);
    } else {
      assert ks[0] in ks;
      NestStep(m, ks, sep, acc);
      var x := NestValue(m[ks[0]], sep).value;
      DocWriteElsewhere(acc, Split(ks[0], sep), x, q);
      NestKeysElsewhere(m, ks[1..], sep, DocWrite(acc, Split(ks[0], sep), x), q);
    }
  }

  lemma {:induction false} NestKeysAt(m: Doc, ks: seq<string>, sep: char, acc: Doc, k: string)
    requires (forall j :: j in ks ==> j in m) && k in ks && NestKeys(m, ks, sep, acc).Some?
    requires forall j :: j in ks ==> DocPath(Split(j, sep))
    requires forall j :: j in ks && j != k ==> !Comparable(Split(j, sep), Split(k, sep))
    requires forall i, j :: 0 <= i < j < |ks| ==> ks[i] != ks[j]
    ensures NestValue(m[k], sep).Some?
    ensures DocGet(NestKeys(m, ks, sep, acc).value, Split(k, sep)) == NestValue(m[k], sep).value
    decreases |ks|
  {
    hide NestValue, NestKeys, Split, DocPath, Comparable, DocGet, DocWrite, DocCanWrite;
    assert ks[0] in ks;
    NestStep(m, ks, sep, acc);
    var x := NestValue(m[ks[0]], sep).value;
    var acc1 := DocWrite(acc, Split(ks[0], sep), x);
    if ks[0] == k {
      DocWriteThenGet(acc, Split(k, sep), x);
      forall j | j in ks[1..] ensures j in ks && j != k {
        var i :| 0 <= i < |ks[1..]| && ks[1..][i] == j;
        assert ks[i + 1] == j;
      }
      NestKeysElsewhere(m, ks[1..], sep, acc1, Split(k, sep));
    } else {
      assert k in ks[1..];
      NestKeysAt(m, ks[1..], sep, acc1, k);
    }
  }

  /** The keys of the document name places that an insertion can address. */
  ghost predicate Addressed(d: Doc, sep: char) { forall k :: k in d ==> DocPath(Split(k, sep)) }

  /** nest moves an entry whose split key is incomparable with those of the others to that path, as
      Nested says. */
  lemma NestMoves(d: Doc, sep: char, k: string)
    requires Nest(d, sep).Some? && Addressed(d, sep) && k in d
    requires forall j :: j in d && j != k ==> !Comparable(Split(j, sep), Split(k, sep))
    ensures Nested(d[k], sep, DocGet(Nest(d, sep).value, Split(k, sep)))
  {
    hide Comparable, DocPath, DocGet, NestKeys, Split, Nested, Nests;
    var ks := SortedKeys(d.Keys);
    NestBegin(d, sep);
    NestKeysAt(d, ks, sep, map[], k);
    NestValueIs(d[k], sep);
  }

  lemma {:induction false} NestKeysOk(m: Doc, ks: seq<string>, sep: char, acc: Doc)
    requires forall k :: k in ks ==> k in m && DocPath(Split(k, sep)) && DocCanWrite(acc, Split(k, sep))
    requires forall i, j :: 0 <= i < j < |ks| ==> Parted(Split(ks[i], sep), Split(ks[j], sep))
    ensures NestKeys(m, ks, sep, acc).Some? <==> forall k :: k in ks ==> Nests(m[k], sep)
    decreases |ks|
  {
    hide NestValue, NestKeys, Split, DocPath, Parted, DocCanWrite, DocWrite, Nests, Nested;
    if ks == [] {
      NestDone(m, sep, acc);
    } else {
      assert ks[0] in ks;
      NestStep(m, ks, sep, acc);
      NestValueIs(m[ks[0]], sep);
      assert ks == [ks[0]] + ks[1..];
      if Nests(m[ks[0]], sep) {
        var x := NestValue(m[ks[0]], sep).value;
        var acc1 := DocWrite(acc, Split(ks[0], sep), x);
        forall k | k in ks[1..] ensures DocCanWrite(acc1, Split(k, sep)) {
          var i :| 0 <= i < |ks[1..]| && ks[1..][i] == k;
          assert ks[i + 1] == k && Parted(Split(ks[0], sep), Split(ks[i + 1], sep));
          StillWritable(acc, Split(ks[0], sep), x, Split(k, sep));
        }
        NestKeysOk(m, ks[1..], sep, acc1);
      }
    }
  }

  lemma StillWritable(d: Doc, p: Path, x: Value, q: Path)
    requires DocCanWrite(d, p) && DocPath(p) && DocPath(q) && Parted(p, q) && DocCanWrite(d, q)
    ensures DocCanWrite(DocWrite(d, p, x), q)
  {
    DocCanWriteAcross(d, p, x, q);
  }

  /** Where the split keys part pairwise, nest throws exactly when it throws for a map in the document. */
  lemma NestThrows(d: Doc, sep: char)
    requires Addressed(d, sep)
    requires forall j, k :: j in d && k in d && j != k ==> Parted(Split(j, sep), Split(k, sep))
    ensures Nest(d, sep).Some? <==> forall k :: k in d ==> Nests(d[k], sep)
  {
    hide NestKeys, Split, Parted, Nests, CanWrite;
    var ks := SortedKeys(d.Keys);
    var start: Doc := map[];
    NestBegin(d, sep);
    forall k | k in ks ensures DocCanWrite(start, Split(k, sep)) { CanWriteFresh(Split(k, sep)[1..]); }
    forall i, j | 0 <= i < j < |ks| ensures Parted(Split(ks[i], sep), Split(ks[j], sep)) {
      assert ks[i] in ks && ks[j] in ks;
    }
    NestKeysOk(d, ks, sep, start);
  }

  // ---------- documents that nest leaves alone ----------

  /** No key that nest comes to below v holds the separator. */
  ghost predicate Settled(v: Value, sep: char) {
    match v
    case Map(m) => DocLeaves(m) == [] || forall k :: k in m ==> sep !in k && Settled(m[k], sep)
    case List(xs) => forall i :: 0 <= i < |xs| && xs[i].Map? ==> Settled(xs[i], sep)
    case _ => true
  }

  /** The keys of what NestKeys makes hold no separator. */
  lemma {:induction false} NestKeysNames(m: Doc, ks: seq<string>, sep: char, acc: Doc)
    requires (forall k :: k in ks ==> k in m) && NestKeys(m, ks, sep, acc).Some?
    requires forall k :: k in acc ==> sep !in k
    ensures forall k :: k in NestKeys(m, ks, sep, acc).value ==> sep !in k
    decreases |ks|
  {
    hide NestValue, NestKeys, CanWrite, Write;
    if ks == [] {
      NestDone(m, sep, acc);
    } else {
      NestStep(m, ks, sep, acc);
      NestKeysNames(m, ks[1..], sep, DocWrite(acc, Split(ks[0], sep), NestValue(m[ks[0]], sep).value));
    }
  }

  /** With unbroken keys NestKeys nests the values where they are. */
  lemma {:induction false} NestKeysInPlace(m: Doc, ks: seq<string>, sep: char, acc: Doc)
    requires forall k :: k in ks ==> k in m && sep !in k
    ensures NestKeys(m, ks, sep, acc).Some? <==> forall k :: k in ks ==> NestValue(m[k], sep).Some?
    ensures NestKeys(m, ks, sep, acc).Some? ==>
              var r := NestKeys(m, ks, sep, acc).value;
              && (forall k :: k in r <==> k in acc || k in ks)
              && (forall k :: k in ks ==> Some(r[k]) == NestValue(m[k], sep))
              && (forall k :: k in acc && k !in ks ==> r[k] == acc[k])
    decreases |ks|
  {
    hide NestValue, NestKeys;
    if ks == [] {
      NestDone(m, sep, acc);
    } else {
      assert ks[0] in ks && ks == [ks[0]] + ks[1..];
      SplitUnbroken(ks[0], sep);
      NestStep(m, ks, sep, acc);
      if NestValue(m[ks[0]], sep).Some? {
        assert [ks[0]][1..] == [];
        NestKeysInPlace(m, ks[1..], sep, DocWrite(acc, [ks[0]], NestValue(m[ks[0]], sep).value));
      }
    }
  }

  lemma KeysStay(m: Doc, ks: seq<string>, sep: char)
    requires (forall k :: k in m ==> sep !in k) && forall k :: k in ks <==> k in m
    ensures NestKeys(m, ks, sep, map[]) == Some(m) <==> forall k :: k in m ==> NestValue(m[k], sep) == Some(m[k])
  {
    hide NestValue, NestKeys;
    NestKeysInPlace(m, ks, sep, map[]);
    if NestKeys(m, ks, sep, map[]) == Some(m) {
      forall k | k in m ensures NestValue(m[k], sep) == Some(m[k]) { assert k in ks; }
    }
    if forall k :: k in m ==> NestValue(m[k], sep) == Some(m[k]) {
      assert NestKeys(m, ks, sep, map[]).value == m;
    }
  }

  lemma UnbrokenStays(m: Doc, sep: char)
    requires forall k :: k in m ==> sep !in k
    ensures Nest(m, sep) == Some(m) <==> forall k :: k in m ==> NestValue(m[k], sep) == Some(m[k])
  {
    hide NestValue, NestKeys, Nest;
    NestBegin(m, sep);
    KeysStay(m, SortedKeys(m.Keys), sep);
  }

  lemma BrokenMoves(m: Doc, sep: char, k: string)
    requires k in m && sep in k
    ensures Nest(m, sep) != Some(m)
  {
    hide NestValue, NestKeys;
    NestBegin(m, sep);
    if Nest(m, sep) == Some(m) { NestKeysNames(m, SortedKeys(m.Keys), sep, map[]); }
  }

  lemma MapStays(m: Doc, sep: char)
    requires forall k :: k in m ==> (NestValue(m[k], sep) == Some(m[k]) <==> Settled(m[k], sep))
    ensures Nest(m, sep) == Some(m) <==> forall k :: k in m ==> sep !in k && Settled(m[k], sep)
  {
    hide NestValue, Nest, Settled;
    if k :| k in m && sep in k {
      BrokenMoves(m, sep, k);
    } else {
      UnbrokenStays(m, sep);
    }
  }

  lemma {:induction false} ValueStays(v: Value, sep: char)
    ensures NestValue(v, sep) == Some(v) <==> Settled(v, sep)
    decreases v
  {
    match v
    case Map(m) =>
      forall k | k in m { ValueStays(m[k], sep); }
      MapStays(m, sep);
      hide NestKeys;
    case List(xs) =>
      forall i | 0 <= i < |xs| { ValueStays(xs[i], sep); }
      ItemsStay(xs, 0, sep);
      assert xs[0..] == xs;
      hide NestItems, NestKeys;
    case _ =>
  }

  lemma {:induction false} ItemsStay(xs: seq<Value>, i: nat, sep: char)
    requires i <= |xs|
    requires forall j :: 0 <= j < |xs| ==> (NestValue(xs[j], sep) == Some(xs[j]) <==> Settled(xs[j], sep))
    ensures NestItems(xs, i, sep) == Some(xs[i..]) <==> forall j :: i <= j < |xs| && xs[j].Map? ==> Settled(xs[j], sep)
    decreases |xs| - i
  {
    hide NestValue, Settled, NestItems;
    ItemsUnfold(xs, i, sep);
    if i == |xs| {
      assert xs[i..] == [];
    } else {
      ItemsStay(xs, i + 1, sep);
      assert xs[i..] == [xs[i]] + xs[i + 1..];
      var first, rest := if xs[i].Map? then NestValue(xs[i], sep) else Some(xs[i]), NestItems(xs, i + 1, sep);
      assert NestValue(xs[i], sep) == Some(xs[i]) <==> Settled(xs[i], sep);
      assert first == Some(xs[i]) <==> (xs[i].Map? ==> Settled(xs[i], sep));
      if first.Some? && rest.Some? {
        assert ([first.value] + rest.value)[1..] == rest.value;
        assert [first.value] + rest.value == xs[i..] <==> first.value == xs[i] && rest.value == xs[i + 1..];
      }
      assert NestItems(xs, i, sep) == Some(xs[i..]) <==> first == Some(xs[i]) && rest == Some(xs[i + 1..]);
    }
  }

  lemma ItemsUnfold(xs: seq<Value>, i: nat, sep: char)
    requires i <= |xs|
    ensures NestItems(xs, i, sep) ==
            if i == |xs| then Some([])
            else
              var first := if xs[i].Map? then NestValue(xs[i], sep) else Some(xs[i]);
              var rest := NestItems(xs, i + 1, sep);
              if first.Some? && rest.Some? then Some([first.value] + rest.value) else None
  {
    hide NestValue;
  }

  /** nest leaves a document alone exactly when no key that it comes to holds the separator. */
  lemma NestLeavesAlone(d: Doc, sep: char)
    ensures Nest(d, sep) == Some(d) <==> forall k :: k in d ==> sep !in k && Settled(d[k], sep)
  {
    forall k | k in d { ValueStays(d[k], sep); }
    MapStays(d, sep);
  }
}
