/** The loops of JsonDict that insert leaves one by one: merge, update, diff, sanitized,
    nest; and what they do to the set of leaves as a whole. */
module JsonMerge {
  import opened Keys
  import opened JsonValue
  import opened JsonLeaves
  import opened JsonDoc

  /** Always: insert every leaf. Overwrite: insert unless already equal. KeepValid: insert
      only where no valid value is found. */
  datatype Mode = Always | Overwrite | KeepValid

  /** The document after a loop, whether it ran to its end (ok) or an insertion threw, and
      whether any leaf was inserted. */
  datatype Outcome = Outcome(doc: Doc, ok: bool, changed: bool)

  predicate Wanted(mode: Mode, found: Value, s: Scalar) {
    match mode
    case Always => true
    case Overwrite => found != Leaf(s)
    case KeepValid => found == Null
  }

  /** The loop over a leaf list. */
  function InsertAll(d: Doc, leaves: seq<LeafEntry>, mode: Mode): Outcome
    decreases |leaves|
  {
    if leaves == [] then Outcome(d, true, false)
    else
      var (p, s) := leaves[0];
      if !Wanted(mode, DocGet(d, p), s) then InsertAll(d, leaves[1..], mode)
      else if !DocCanWrite(d, p) then Outcome(d, false, true)
      else InsertAll(DocWrite(d, p, Leaf(s)), leaves[1..], mode).(changed := true)
  }

  /** One turn of the loop. */
  lemma InsertStep(d: Doc, leaves: seq<LeafEntry>, mode: Mode)
    requires leaves != []
    ensures var (p, s) := leaves[0];
            InsertAll(d, leaves, mode) ==
            if !Wanted(mode, DocGet(d, p), s) then InsertAll(d, leaves[1..], mode)
            else if !DocCanWrite(d, p) then Outcome(d, false, true)
            else InsertAll(DocWrite(d, p, Leaf(s)), leaves[1..], mode).(changed := true)
  {}

  lemma InsertNothing(d: Doc, mode: Mode)
    ensures InsertAll(d, [], mode) == Outcome(d, true, false)
  {}

  /** The entries the loop inserts, judged against the document it starts from. */
  predicate Touched(d: Doc, leaves: seq<LeafEntry>, mode: Mode, e: LeafEntry) {
    e in leaves && Wanted(mode, DocGet(d, e.0), e.1)
  }

  predicate Untouched(d: Doc, leaves: seq<LeafEntry>, mode: Mode, q: Path) {
    forall e :: e in leaves && Wanted(mode, DocGet(d, e.0), e.1) ==> !Comparable(e.0, q)
  }

  lemma TailApart(leaves: seq<LeafEntry>)
    requires DocApart(leaves) && leaves != []
    ensures DocApart(leaves[1..])
    ensures forall e :: e in leaves[1..] ==> DocPath(e.0) && Parted(leaves[0].0, e.0)
  {
    var rest := leaves[1..];
    forall e | e in rest
      ensures DocPath(e.0) && Parted(leaves[0].0, e.0)
    {
      var i :| 0 <= i < |rest| && rest[i] == e;
      assert leaves[i + 1] == e;
    }
  }

  /** Inserting the first leaf does not change which of the others the loop wants, nor
      whether they can be written. */
  lemma FirstStep(d: Doc, leaves: seq<LeafEntry>, mode: Mode, e: LeafEntry)
    requires DocApart(leaves) && leaves != [] && e in leaves[1..]
    requires DocCanWrite(d, leaves[0].0)
    ensures var d' := DocWrite(d, leaves[0].0, Leaf(leaves[0].1));
            && DocGet(d', e.0) == DocGet(d, e.0)
            && (DocCanWrite(d', e.0) <==> DocCanWrite(d, e.0))
  {
    TailApart(leaves);
    DocWriteLeaves(d, leaves[0].0, leaves[0].1, e.0);
    DocCanWriteAcross(d, leaves[0].0, Leaf(leaves[0].1), e.0);
  }

  /** The leaves after the loop: every inserted one, and every old one off all inserted paths. */
  lemma {:induction false} InsertAllLeaves(d: Doc, leaves: seq<LeafEntry>, mode: Mode, q: Path, s: Scalar)
    requires DocApart(leaves) && DocPath(q)
    requires InsertAll(d, leaves, mode).ok
    ensures DocGet(InsertAll(d, leaves, mode).doc, q) == Leaf(s) <==>
              (Touched(d, leaves, mode, (q, s)) || (DocGet(d, q) == Leaf(s) && Untouched(d, leaves, mode, q)))
    decreases |leaves|
  {
    if leaves != [] {
      var (p, t) := leaves[0];
      var rest := leaves[1..];
      TailApart(leaves);
      assert forall e :: e in leaves <==> e == (p, t) || e in rest;
      if !Wanted(mode, DocGet(d, p), t) {
        InsertAllLeaves(d, rest, mode, q, s);
      } else {
        var d' := DocWrite(d, p, Leaf(t));
        forall e | e in rest ensures DocGet(d', e.0) == DocGet(d, e.0) { FirstStep(d, leaves, mode, e); }
        InsertAllLeaves(d', rest, mode, q, s);
        DocWriteLeaves(d, p, t, q);
        assert Touched(d, rest, mode, (q, s)) == Touched(d', rest, mode, (q, s));
        assert Untouched(d, rest, mode, q) == Untouched(d', rest, mode, q);
      }
    }
  }

  /** The loop throws exactly when some wanted leaf cannot be written into the document it
      starts from. */
  lemma {:induction false} InsertAllOk(d: Doc, leaves: seq<LeafEntry>, mode: Mode)
    requires DocApart(leaves)
    ensures InsertAll(d, leaves, mode).ok <==>
              forall e :: Touched(d, leaves, mode, e) ==> DocCanWrite(d, e.0)
    decreases |leaves|
  {
    if leaves != [] {
      var (p, t) := leaves[0];
      var rest := leaves[1..];
      TailApart(leaves);
      assert forall e :: e in leaves <==> e == (p, t) || e in rest;
      if !Wanted(mode, DocGet(d, p), t) {
        InsertAllOk(d, rest, mode);
        assert forall e :: Touched(d, leaves, mode, e) == Touched(d, rest, mode, e);
      } else if !DocCanWrite(d, p) {
        assert Touched(d, leaves, mode, (p, t));
      } else {
        var d' := DocWrite(d, p, Leaf(t));
        forall e | e in rest
          ensures DocGet(d', e.0) == DocGet(d, e.0) && (DocCanWrite(d', e.0) <==> DocCanWrite(d, e.0))
        {
          FirstStep(d, leaves, mode, e);
        }
        InsertAllOk(d', rest, mode);
        assert forall e :: Touched(d, leaves, mode, e) <==> e == (p, t) || Touched(d', rest, mode, e);
      }
    }
  }

  /** The loop reports a change exactly when it wanted some leaf. */
  lemma {:induction false} InsertAllChanged(d: Doc, leaves: seq<LeafEntry>, mode: Mode)
    ensures InsertAll(d, leaves, mode).changed <==> exists e :: Touched(d, leaves, mode, e)
    decreases |leaves|
  {
    if leaves != [] {
      var (p, t) := leaves[0];
      var rest := leaves[1..];
      if !Wanted(mode, DocGet(d, p), t) {
        InsertAllChanged(d, rest, mode);
        assert forall e :: Touched(d, leaves, mode, e) == Touched(d, rest, mode, e);
      } else {
        assert Touched(d, leaves, mode, (p, t));
      }
    }
  }

  lemma {:induction false} InsertAllTidy(d: Doc, leaves: seq<LeafEntry>, mode: Mode)
    requires TidyDoc(d) && forall e :: e in leaves ==> e.0 != [] && SmallPath(e.0[1..])
    ensures TidyDoc(InsertAll(d, leaves, mode).doc)
    decreases |leaves|
  {
    if leaves != [] {
      var (p, t) := leaves[0];
      assert leaves[0] in leaves;
      if Wanted(mode, DocGet(d, p), t) && DocCanWrite(d, p) {
        DocWriteTidy(d, p, t);
        InsertAllTidy(DocWrite(d, p, Leaf(t)), leaves[1..], mode);
      } else if !Wanted(mode, DocGet(d, p), t) {
        InsertAllTidy(d, leaves[1..], mode);
      }
    }
  }
}
