/** Sync::Json: a current and a target document, with the deltas exchanged between them. */
module SyncJson {
  import opened Keys
  import opened JsonValue
  import opened JsonLeaves
  import opened JsonDoc
  import opened JsonMerge
  import opened JsonDict
  import opened JsonLaws

  class Json {
    const current: JsonDict
    const target: JsonDict

    ghost predicate Valid() { current != target }

    constructor (start: Doc)
      ensures Valid() && fresh(current) && fresh(target)
      ensures current.dict == start && target.dict == map[]
    {
      current := new JsonDict(start);
      target := new JsonDict(map[]);
    }

    /** missingToTarget(). */
    method MissingToTarget() returns (missing: JsonDict, ok: bool)
      requires Valid()
      ensures fresh(missing) && missing.dict == Minus(target.dict, current.dict).doc
      ensures ok == Minus(target.dict, current.dict).ok
    {
      missing, ok := target.Diff(current.dict, false);
    }

    /** updateCurrent(): ok is false when the merge threw half-way, or the difference after it. */
    method UpdateCurrent(newState: Doc) returns (delta: JsonDict, ok: bool)
      requires Valid()
      modifies current
      ensures fresh(delta)
      ensures current.dict == Merged(old(current.dict), newState, true).doc
      ensures ok <==> Merged(old(current.dict), newState, true).ok && Minus(current.dict, old(current.dict)).ok
      ensures ok ==> delta.dict == Minus(current.dict, old(current.dict)).doc
    {
      var was := current.dict;
      var changed;
      ok, changed := current.Update(newState, true);
      if ok {
        delta, ok := current.Diff(was, false);
      } else {
        delta := new JsonDict(map[]);
      }
    }

    /** updateTarget(): ok is false when the merge threw half-way, or the difference after it. */
    method UpdateTarget(newState: Doc) returns (delta: JsonDict, ok: bool)
      requires Valid()
      modifies target
      ensures fresh(delta)
      ensures target.dict == Merged(old(target.dict), newState, true).doc
      ensures ok <==> Merged(old(target.dict), newState, true).ok && Minus(target.dict, old(target.dict)).ok
      ensures ok ==> delta.dict == Minus(target.dict, old(target.dict)).doc
    {
      var was := target.dict;
      var changed;
      ok, changed := target.Update(newState, true);
      if ok {
        delta, ok := target.Diff(was, false);
      } else {
        delta := new JsonDict(map[]);
      }
    }
  }

  /** The delta of one successful update. */
  function Delta(was: Doc, newState: Doc): Doc { Minus(Merged(was, newState, true).doc, was).doc }

  /** The delta holds exactly the leaves of the new state that the old one did not hold. */
  lemma DeltaLeaves(was: Doc, newState: Doc, q: Path, s: Scalar)
    requires TidyDoc(was) && TidyDoc(newState) && Merged(was, newState, true).ok
    ensures (q, s) in DocLeaves(Delta(was, newState)) <==> (q, s) in DocLeaves(newState) && DocGet(was, q) != Leaf(s)
  {
    MergedTidy(was, newState, true);
    MinusLeaves(Merged(was, newState, true).doc, was);
    MergeLeaves(was, newState, q, s);
    DocLeafIsGet(was, q, s);
  }

  lemma DeltaMergeable(was: Doc, newState: Doc)
    requires TidyDoc(was) && TidyDoc(newState) && Merged(was, newState, true).ok
    ensures TidyDoc(Delta(was, newState)) && Merged(was, Delta(was, newState), true).ok
  {
    hide InsertAll, DocLeaves, DocCanWrite, DocGet;
    var delta := Delta(was, newState);
    MergedTidy(was, newState, true);
    MinusLeaves(Merged(was, newState, true).doc, was);
    MergeThrows(was, newState);
    forall e | e in DocLeaves(delta) ensures DocGet(was, e.0) == Leaf(e.1) || DocCanWrite(was, e.0) {
      DeltaLeaves(was, newState, e.0, e.1);
    }
    MergeThrows(was, delta);
  }

  lemma DeltaReproducesLeaf(was: Doc, newState: Doc, q: Path, s: Scalar)
    requires TidyDoc(was) && TidyDoc(newState) && Merged(was, newState, true).ok
    ensures (q, s) in DocLeaves(Merged(was, Delta(was, newState), true).doc) <==>
            (q, s) in DocLeaves(Merged(was, newState, true).doc)
  {
    hide InsertAll, DocLeaves, DocCanWrite, Clear, Delta, Merged, DocGet;
    DeltaMergeable(was, newState);
    MergeLeaves(was, Delta(was, newState), q, s);
    MergeLeaves(was, newState, q, s);
    DeltaLeaves(was, newState, q, s);
    DocLeafIsGet(was, q, s);
    DocLeafIsGet(newState, q, s);
    if (q, s) in DocLeaves(was) { ClearOfDelta(was, newState, q, s); }
  }

  /** Merging the delta into the old state never throws and reproduces the new state leaf for leaf. */
  lemma DeltaReproduces(was: Doc, newState: Doc)
    requires TidyDoc(was) && TidyDoc(newState) && Merged(was, newState, true).ok
    ensures Merged(was, Delta(was, newState), true).ok
    ensures forall q, s :: (q, s) in DocLeaves(Merged(was, Delta(was, newState), true).doc) <==>
                           (q, s) in DocLeaves(Merged(was, newState, true).doc)
  {
    DeltaMergeable(was, newState);
    hide *;
    forall q, s
      ensures (q, s) in DocLeaves(Merged(was, Delta(was, newState), true).doc) <==>
              (q, s) in DocLeaves(Merged(was, newState, true).doc)
    {
      DeltaReproducesLeaf(was, newState, q, s);
    }
  }

  /** A leaf of the old state is off the delta's paths exactly when it is off the new state's
      paths or is itself a leaf of the new state. */
  lemma ClearOfDelta(was: Doc, newState: Doc, q: Path, s: Scalar)
    requires TidyDoc(was) && TidyDoc(newState) && Merged(was, newState, true).ok
    requires (q, s) in DocLeaves(was)
    ensures Clear(DocLeaves(Delta(was, newState)), q) <==>
            Clear(DocLeaves(newState), q) || (q, s) in DocLeaves(newState)
  {
    var delta := DocLeaves(Delta(was, newState));
    DocLeafIsGet(was, q, s);
    if Clear(delta, q) && !Clear(DocLeaves(newState), q) {
      var e :| e in DocLeaves(newState) && Comparable(e.0, q);
      DeltaLeaves(was, newState, e.0, e.1);
      if DocGet(was, e.0) == Leaf(e.1) { LeavesIncomparable(was, e.0, q); assert e == (q, s); }
    }
    if Clear(DocLeaves(newState), q) || (q, s) in DocLeaves(newState) {
      forall e | e in delta ensures !Comparable(e.0, q) {
        DeltaLeaves(was, newState, e.0, e.1);
        if (q, s) in DocLeaves(newState) && Comparable(e.0, q) {
          DocLeafIsGet(newState, e.0, e.1);
          DocLeafIsGet(newState, q, s);
          LeavesIncomparable(newState, e.0, q);
          assert false;
        }
      }
    }
  }

  /** Nothing is missing exactly when current contains target. */
  lemma MissingNothing(current: Doc, target: Doc)
    requires TidyDoc(target)
    ensures DocLeaves(Minus(target, current).doc) == [] <==> Holds(current, DocLeaves(target))
  {
    MinusLeaves(target, current);
    var missing := DocLeaves(Minus(target, current).doc);
    if missing != [] { assert (missing[0].0, missing[0].1) in missing; }
    if !Holds(current, DocLeaves(target)) {
      var e :| e in DocLeaves(target) && DocGet(current, e.0) != Leaf(e.1);
      assert (e.0, e.1) in missing;
    }
  }

  /** Feeding what is missing back through updateCurrent: it throws exactly when some missing
      leaf meets a container of the other kind, and otherwise nothing is missing afterwards. */
  lemma CatchUp(current: Doc, target: Doc)
    requires TidyDoc(current) && TidyDoc(target)
    ensures var missing := Minus(target, current).doc;
            var after := Merged(current, missing, true);
            && (after.ok <==> forall e :: e in DocLeaves(missing) ==> DocCanWrite(current, e.0))
            && (after.ok ==> DocLeaves(Minus(target, after.doc).doc) == [])
  {
    var missing := Minus(target, current).doc;
    var after := Merged(current, missing, true);
    MinusLeaves(target, current);
    MergeThrows(current, missing);
    if after.ok {
      forall e | e in DocLeaves(missing) ensures DocCanWrite(current, e.0) { assert (e.0, e.1) in DocLeaves(missing); }
      MergedTidy(current, missing, true);
      forall e | e in DocLeaves(target) ensures DocGet(after.doc, e.0) == Leaf(e.1) {
        MergeLeaves(current, missing, e.0, e.1);
        DocLeafIsGet(after.doc, e.0, e.1);
        DocLeafIsGet(current, e.0, e.1);
        DocLeafIsGet(target, e.0, e.1);
        if DocGet(current, e.0) == Leaf(e.1) {
          forall x | x in DocLeaves(missing) ensures !Comparable(x.0, e.0) {
            assert (x.0, x.1) in DocLeaves(missing);
            DocLeafIsGet(target, x.0, x.1);
            if Comparable(x.0, e.0) { LeavesIncomparable(target, x.0, e.0); assert false; }
          }
        }
      }
      MissingNothing(after.doc, target);
    }
  }
}
