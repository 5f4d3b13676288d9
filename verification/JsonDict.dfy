/** The JsonDict class: path access, the leaf loops built on the iterator, and the laws the
    callers rely on. */
module JsonDict {
  import opened Keys
  import opened JsonValue
  import opened JsonLeaves
  import opened JsonDoc
  import opened JsonMerge
  import opened JsonNormal
  import LeafIterator

  // ---------- specifications ----------

  /** The leaves of d that e does not hold with the same value. */
  function Differing(leaves: seq<LeafEntry>, e: Doc): (r: seq<LeafEntry>)
    ensures forall x :: x in r <==> x in leaves && DocGet(e, x.0) != Leaf(x.1)
  {
    if leaves == [] then []
    else (if DocGet(e, leaves[0].0) != Leaf(leaves[0].1) then [leaves[0]] else []) + Differing(leaves[1..], e)
  }

  lemma DifferingNothing(e: Doc)
    ensures Differing([], e) == []
  {}

  /** One turn of the loop that inserts the differing leaves. */
  lemma DifferingStep(d: Doc, leaves: seq<LeafEntry>, e: Doc)
    requires leaves != []
    ensures var (p, s) := leaves[0];
            InsertAll(d, Differing(leaves, e), Always) ==
            if DocGet(e, p) == Leaf(s) then InsertAll(d, Differing(leaves[1..], e), Always)
            else if !DocCanWrite(d, p) then Outcome(d, false, true)
            else InsertAll(DocWrite(d, p, Leaf(s)), Differing(leaves[1..], e), Always).(changed := true)
  {
    hide DocGet, DocCanWrite, DocWrite;
    var rest := Differing(leaves[1..], e);
    if DocGet(e, leaves[0].0) == Leaf(leaves[0].1) {
      assert Differing(leaves, e) == rest;
    } else {
      assert Differing(leaves, e) == [leaves[0]] + rest && ([leaves[0]] + rest)[1..] == rest;
    }
  }

  /** Every leaf of the list is held by d with its value. */
  predicate Holds(d: Doc, leaves: seq<LeafEntry>) {
    forall e :: e in leaves ==> DocGet(d, e.0) == Leaf(e.1)
  }

  lemma HoldsStep(d: Doc, leaves: seq<LeafEntry>)
    requires leaves != []
    ensures Holds(d, leaves) <==> DocGet(d, leaves[0].0) == Leaf(leaves[0].1) && Holds(d, leaves[1..])
  {
    assert leaves[0] in leaves;
    assert leaves == [leaves[0]] + leaves[1..];
  }

  lemma HoldsNothing(d: Doc)
    ensures Holds(d, [])
  {}

  function DiffSpec(d: Doc, e: Doc, full: bool): Outcome {
    var first := if full then InsertAll(map[], Differing(DocLeaves(e), d), Always) else Outcome(map[], true, false);
    if !first.ok then first else InsertAll(first.doc, Differing(DocLeaves(d), e), Always)
  }

  function FlattenLeaves(leaves: seq<LeafEntry>, sep: char, acc: Doc): Doc
    decreases |leaves|
  {
    if leaves == [] then acc
    else FlattenLeaves(leaves[1..], sep, acc[Join(leaves[0].0, sep) := Leaf(leaves[0].1)])
  }

  function Flatten(d: Doc, sep: char): Doc { FlattenLeaves(DocLeaves(d), sep, map[]) }

  /** JsonDict::nest over the keys ks of m; None when an insertion throws. */
  function NestKeys(m: Doc, ks: seq<string>, sep: char, acc: Doc): Option<Doc>
    requires forall k :: k in ks ==> k in m
    decreases Map(m), |ks|
  {
    if ks == [] then Some(acc)
    else
      match NestValue(m[ks[0]], sep)
      case None => None
      case Some(x) =>
        if DocCanWrite(acc, Split(ks[0], sep)) then NestKeys(m, ks[1..], sep, DocWrite(acc, Split(ks[0], sep), x))
        else None
  }

  /** A nested map becomes a nested JsonDict of its own; so does a map inside a list. */
  function NestValue(v: Value, sep: char): Option<Value>
    decreases v, if v.Map? then |v.m| + 1 else if v.List? then |v.xs| + 1 else 0
  {
    match v
    case Map(m) =>
      if DocLeaves(m) == [] then Some(v)
      else
        (match NestKeys(m, SortedKeys(m.Keys), sep, map[])
         case None => None
         case Some(r) => Some(Map(r)))
    case List(xs) =>
      (match NestItems(xs, 0, sep)
       case None => None
       case Some(r) => Some(List(r)))
    case _ => Some(v)
  }

  function NestItems(xs: seq<Value>, i: nat, sep: char): Option<seq<Value>>
    requires i <= |xs|
    decreases List(xs), |xs| - i
  {
    if i == |xs| then Some([])
    else
      var first := if xs[i].Map? then NestValue(xs[i], sep) else Some(xs[i]);
      var rest := NestItems(xs, i + 1, sep);
      if first.Some? && rest.Some? then Some([first.value] + rest.value) else None
  }

  function Nest(d: Doc, sep: char): Option<Doc> { NestKeys(d, SortedKeys(d.Keys), sep, map[]) }

  lemma NestBegin(m: Doc, sep: char)
    ensures Nest(m, sep) == NestKeys(m, SortedKeys(m.Keys), sep, map[])
  {}

  lemma NestDone(m: Doc, sep: char, acc: Doc)
    ensures NestKeys(m, [], sep, acc) == Some(acc)
  {}

  lemma NestStep(m: Doc, ks: seq<string>, sep: char, acc: Doc)
    requires ks != [] && forall k :: k in ks ==> k in m
    ensures NestKeys(m, ks, sep, acc) ==
            if NestValue(m[ks[0]], sep).None? || !DocCanWrite(acc, Split(ks[0], sep)) then None
            else NestKeys(m, ks[1..], sep, DocWrite(acc, Split(ks[0], sep), NestValue(m[ks[0]], sep).value))
  {}

  /** Assignment through the reference operator[] returns: the containers opened on the way
      down, each with the key taken next, take the new value from the innermost up. */
  function Plug(frames: seq<(Value, string)>, x: Value): Value
    requires forall f :: f in frames ==> f.0.IsContainer() && StepOk(f.0, f.1)
    decreases |frames|
  {
    if frames == [] then x
    else
      var f := frames[|frames| - 1];
      Plug(frames[..|frames| - 1], Put(f.0, f.1, x))
  }

  /** One container opened on the way down. */
  lemma PlugStep(frames: seq<(Value, string)>, current: Value, path: Path, x: Value)
    requires forall f :: f in frames ==> f.0.IsContainer() && StepOk(f.0, f.1)
    requires path != [] && StepOk(current, path[0])
    ensures var f := frames + [(Open(current, path[0]), path[0])];
            && (forall g :: g in f ==> g.0.IsContainer() && StepOk(g.0, g.1))
            && (CanWrite(current, path) <==> CanWrite(Slot(current, path[0]), path[1..]))
            && (CanWrite(current, path) ==>
                  Plug(f, Write(Slot(current, path[0]), path[1..], x)) == Plug(frames, Write(current, path, x)))
  {
    hide StepOk;
    var f := frames + [(Open(current, path[0]), path[0])];
    assert f[..|f| - 1] == frames;
  }

  lemma PlugNothing(v: Value, x: Value)
    ensures CanWrite(v, []) && Write(v, [], x) == x && Plug([], x) == x
  {}

  lemma PlugTop(v: Value, path: Path, x: Value)
    requires CanWrite(v, path)
    ensures Plug([], Write(v, path, x)) == Write(v, path, x)
  {}

  lemma WriteAtTop(d: Doc, path: Path, x: Value)
    ensures DocCanWrite(d, path) <==> path != [] && CanWrite(Top(d, path[0]), path[1..])
    ensures DocCanWrite(d, path) ==> DocWrite(d, path, x) == d[path[0] := Write(Top(d, path[0]), path[1..], x)]
  {}

  lemma StepRefused(v: Value, path: Path)
    requires path != [] && !StepOk(v, path[0])
    ensures !CanWrite(v, path)
  {}

  // ---------- the class ----------

  class JsonDict {
    var dict: Doc

    constructor (dict: Doc)
      ensures this.dict == dict
    {
      this.dict := dict;
    }

    /** value(): recurseTo walks containers until the path or the tree ends. */
    method Value(path: Path) returns (v: Value)
      ensures v == DocGet(dict, path)
    {
      if path == [] { return Null; }
      var container := Map(dict);
      v := Null;
      for i := 0 to |path|
        invariant i == 0 ==> container == Map(dict)
        invariant i > 0 ==> DocGet(dict, path) == Get(v, path[i..])
        invariant 0 < i < |path| ==> container == v && v.IsContainer()
      {
        var found := Find(container, path[i]);
        assert path[i..] == [path[i]] + path[i + 1..];
        if found.None? {
          GetBelowNull(path[i + 1..]);
          return Null;
        }
        v := found.value;
        assert DocGet(dict, path) == Get(v, path[i + 1..]);
        if v.IsContainer() {
          container := v;
        } else if i < |path| - 1 {
          if v.Leaf? { GetBelowLeaf(v.s, path[i + 1..]); } else { GetBelowNull(path[i + 1..]); }
          return Null;
        }
      }
      assert path[|path|..] == [];
    }

    /** insert(): operator[] opens containers along the path, then assigns. A refused step
        throws before anything has changed. */
    method Insert(path: Path, x: Value) returns (ok: bool)
      modifies this
      ensures ok <==> DocCanWrite(old(dict), path)
      ensures dict == if ok then DocWrite(old(dict), path, x) else old(dict)
    {
      hide StepOk, CanWrite, Write, Plug, Open, Slot, DocWrite, DocCanWrite, Top;
      WriteAtTop(dict, path, x);
      if path == [] { return false; }
      var frames: seq<(Value, string)> := [];
      var current := Top(dict, path[0]);
      ghost var top := current;
      PlugNothing(top, x);
      if CanWrite(top, path[1..]) { PlugTop(top, path[1..], x); }
      for index := 1 to |path|
        invariant dict == old(dict)
        invariant forall f :: f in frames ==> f.0.IsContainer() && StepOk(f.0, f.1)
        invariant CanWrite(top, path[1..]) <==> CanWrite(current, path[index..])
        invariant CanWrite(top, path[1..]) ==>
          Plug(frames, Write(current, path[index..], x)) == Write(top, path[1..], x)
      {
        var nextKey := path[index];
        assert path[index..][0] == nextKey && path[index..][1..] == path[index + 1..];
        if !StepOk(current, nextKey) {
          StepRefused(current, path[index..]);
          return false;
        }
        PlugStep(frames, current, path[index..], x);
        var box := Open(current, nextKey);
        frames := frames + [(box, nextKey)];
        current := Slot(current, nextKey);
      }
      assert path[|path|..] == [];
      PlugNothing(current, x);
      ok := true;
      dict := dict[path[0] := Plug(frames, x)];
    }

    /** contains(): every leaf of src is found here with its value. */
    method Contains(src: Doc) returns (r: bool)
      ensures r <==> Holds(dict, DocLeaves(src))
    {
      hide DocLeaves, LeafIterator.Linked, LeafIterator.Pending, DocGet, Holds;
      var it := new LeafIterator.Iterator.Begin(src);
      it.EndMeansDone();
      while !it.AtEnd()
        invariant it.Valid() && fresh(it)
        invariant it.AtEnd() <==> it.Remaining() == []
        invariant Holds(dict, DocLeaves(src)) <==> Holds(dict, it.Remaining())
        decreases |it.Remaining()|
      {
        var key := it.Key();
        var val := it.Value();
        var thisItem := Value(key);
        HoldsStep(dict, it.Remaining());
        if thisItem != Leaf(val) { return false; }
        it.Next();
        it.EndMeansDone();
      }
      assert Holds(dict, []) by { HoldsNothing(dict); }
      r := true;
    }

    /** update() and merge(): ok is false when an insertion threw. */
    method Update(src: Doc, overwrite: bool) returns (ok: bool, wasUpdated: bool)
      modifies this
      ensures Outcome(dict, ok, wasUpdated) ==
              InsertAll(old(dict), DocLeaves(src), if overwrite then Overwrite else KeepValid)
    {
      hide DocLeaves, LeafIterator.Linked, LeafIterator.Pending, DocGet, DocWrite, DocCanWrite, InsertAll;
      ghost var mode := if overwrite then Overwrite else KeepValid;
      ghost var goal := InsertAll(dict, DocLeaves(src), mode);
      wasUpdated := false;
      var it := new LeafIterator.Iterator.Begin(src);
      it.EndMeansDone();
      while !it.AtEnd()
        invariant it.Valid() && fresh(it)
        invariant it.AtEnd() <==> it.Remaining() == []
        invariant var now := InsertAll(dict, it.Remaining(), mode);
                  goal == now.(changed := now.changed || wasUpdated)
        decreases |it.Remaining()|
      {
        var key := it.Key();
        var val := it.Value();
        var thisVal := Value(key);
        InsertStep(dict, it.Remaining(), mode);
        if overwrite || thisVal == Null {
          if thisVal != Leaf(val) {
            wasUpdated := true;
            var inserted := Insert(key, Leaf(val));
            if !inserted { return false, true; }
          }
        }
        it.Next();
        it.EndMeansDone();
      }
      InsertNothing(dict, mode);
      ok := true;
    }

    /** operator- and diff(): a fresh document with the leaves the two disagree on. */
    method Diff(other: Doc, full: bool) returns (result: JsonDict, ok: bool)
      ensures fresh(result)
      ensures result.dict == DiffSpec(dict, other, full).doc && ok == DiffSpec(dict, other, full).ok
    {
      result := new JsonDict(map[]);
      ok := true;
      if full { ok := result.InsertDiffering(other, dict); }
      if ok { ok := result.InsertDiffering(dict, other); }
    }

    /** One of diff's two loops: the leaves of src that against does not hold. */
    method InsertDiffering(src: Doc, against: Doc) returns (ok: bool)
      modifies this
      ensures var r := InsertAll(old(dict), Differing(DocLeaves(src), against), Always);
              dict == r.doc && ok == r.ok
    {
      hide DocLeaves, LeafIterator.Linked, LeafIterator.Pending, DocGet, DocWrite, DocCanWrite, InsertAll, Differing;
      var reference := new JsonDict(against);
      ghost var goal := InsertAll(dict, Differing(DocLeaves(src), against), Always);
      var it := new LeafIterator.Iterator.Begin(src);
      it.EndMeansDone();
      while !it.AtEnd()
        invariant it.Valid() && fresh(it) && fresh(reference) && reference.dict == against
        invariant it.AtEnd() <==> it.Remaining() == []
        invariant var now := InsertAll(dict, Differing(it.Remaining(), against), Always);
                  goal.doc == now.doc && goal.ok == now.ok
        decreases |it.Remaining()|
      {
        var key := it.Key();
        var val := it.Value();
        var otherVal := reference.Value(key);
        DifferingStep(dict, it.Remaining(), against);
        if otherVal != Leaf(val) {
          var inserted := Insert(key, Leaf(val));
          if !inserted { return false; }
        }
        it.Next();
        it.EndMeansDone();
      }
      DifferingNothing(against);
      InsertNothing(dict, Always);
      ok := true;
    }

    /** sanitized(): a fresh document rebuilt from the leaves. */
    method Sanitized() returns (result: JsonDict, ok: bool)
      ensures fresh(result)
      ensures result.dict == InsertAll(map[], DocLeaves(dict), Always).doc
      ensures ok == InsertAll(map[], DocLeaves(dict), Always).ok
    {
      hide DocLeaves, LeafIterator.Linked, LeafIterator.Pending, DocGet, DocWrite, DocCanWrite;
      result := new JsonDict(map[]);
      var it := new LeafIterator.Iterator.Begin(dict);
      it.EndMeansDone();
      while !it.AtEnd()
        invariant it.Valid() && fresh(it) && fresh(result) && result != this
        invariant it.AtEnd() <==> it.Remaining() == []
        invariant InsertAll(result.dict, it.Remaining(), Always).doc == InsertAll(map[], DocLeaves(dict), Always).doc
        invariant InsertAll(result.dict, it.Remaining(), Always).ok == InsertAll(map[], DocLeaves(dict), Always).ok
        decreases |it.Remaining()|
      {
        var key := it.Key();
        var val := it.Value();
        ok := result.Insert(key, Leaf(val));
        if !ok { return; }
        it.Next();
        it.EndMeansDone();
      }
      ok := true;
    }

    /** flatten(): one flat map entry per leaf. */
    method Flattened(separator: char) returns (result: Doc)
      ensures result == Flatten(dict, separator)
    {
      hide DocLeaves, LeafIterator.Linked, LeafIterator.Pending, DocGet, DocWrite, DocCanWrite;
      result := map[];
      var it := new LeafIterator.Iterator.Begin(dict);
      it.EndMeansDone();
      while !it.AtEnd()
        invariant it.Valid() && fresh(it)
        invariant it.AtEnd() <==> it.Remaining() == []
        invariant FlattenLeaves(it.Remaining(), separator, result) == Flatten(dict, separator)
        decreases |it.Remaining()|
      {
        var key := it.Key();
        var val := it.Value();
        result := result[Join(key, separator) := Leaf(val)];
        it.Next();
        it.EndMeansDone();
      }
    }

    /** nest(): reinserts every top entry under its split key; a throw leaves the state alone. */
    method NestInPlace(separator: char) returns (ok: bool)
      modifies this
      ensures ok <==> Nest(old(dict), separator).Some?
      ensures dict == if ok then Nest(old(dict), separator).value else old(dict)
    {
      hide *;
      var newState := new JsonDict(map[]);
      var ks := SortedKeys(dict.Keys);
      ghost var goal := Nest(dict, separator);
      assert goal == NestKeys(dict, ks[0..], separator, map[]) by { NestBegin(dict, separator); assert ks[0..] == ks; }
      for i := 0 to |ks|
        invariant fresh(newState) && dict == old(dict)
        invariant forall k :: k in ks ==> k in dict
        invariant NestKeys(dict, ks[i..], separator, newState.dict) == goal
      {
        NestStep(dict, ks[i..], separator, newState.dict);
        assert ks[i..][1..] == ks[i + 1..];
        var toInsert := NestValue(dict[ks[i]], separator);
        if toInsert.None? { return false; }
        var inserted := newState.Insert(Split(ks[i], separator), toInsert.value);
        if !inserted { return false; }
      }
      assert goal == Some(newState.dict) by { NestDone(dict, separator, newState.dict); }
      dict := newState.dict;
      ok := true;
    }
  }
}
