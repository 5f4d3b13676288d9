/** The explicit-stack leaf iterator of JsonDict: a cursor, a stack of suspended cursors and
    a recursion flag, shown to walk the recursive leaf list. */
module LeafIterator {
  import opened Keys
  import opened JsonValue
  import opened JsonLeaves
  import opened JsonDoc

  /** NestedIter: a position in one container, the container's identity (its place below the
      root) and the quint16 element counter that lists report as their key. */
  datatype Cursor = Cursor(node: Value, at: seq<nat>, pos: nat, count: nat)
  {
    ghost predicate Ok() {
      && node.IsContainer()
      && pos <= |Children(node)|
      && (node.List? ==> count == pos % COUNTER_MODULUS)
    }

    predicate AtEnd() { pos >= |Children(node)| }

    function Key(): string
      requires !AtEnd()
    {
      if node.Map? then Children(node)[pos].0 else IndexKey(count)
    }

    function Val(): Value
      requires !AtEnd()
    {
      Children(node)[pos].1
    }

    function Bumped(): Cursor {
      if node.Map? then this.(pos := pos + 1)
      else this.(pos := pos + 1, count := (count + 1) % COUNTER_MODULUS)
    }
  }

  lemma BumpedOk(c: Cursor)
    requires c.Ok() && !c.AtEnd()
    ensures c.Bumped().Ok() && c.Key() == Children(c.node)[c.pos].0
  {}

  // ---------- what is left to visit ----------

  /** The keys of the suspended cursors, outermost first. */
  ghost function PrefixOf(history: seq<Cursor>): Path
    requires forall i :: 0 <= i < |history| ==> !history[i].AtEnd()
  {
    seq(|history|, i requires 0 <= i < |history| => history[i].Key())
  }

  ghost function Under(prefix: Path, leaves: seq<LeafEntry>): (r: seq<LeafEntry>)
    ensures |r| == |leaves|
    ensures forall i :: 0 <= i < |r| ==> r[i] == (prefix + leaves[i].0, leaves[i].1)
  {
    seq(|leaves|, i requires 0 <= i < |leaves| => (prefix + leaves[i].0, leaves[i].1))
  }

  ghost predicate HistoryOk(history: seq<Cursor>) {
    && (forall i :: 0 <= i < |history| ==> history[i].Ok() && !history[i].AtEnd())
    && (forall i :: 0 <= i < |history| - 1 ==> history[i + 1].node == history[i].Val())
    && (forall i :: 0 <= i < |history| - 1 ==> history[i + 1].at == history[i].at + [history[i].pos])
  }

  /** The leaves the suspended cursors have yet to reach, innermost first. */
  ghost function Above(history: seq<Cursor>): seq<LeafEntry>
    requires HistoryOk(history)
  {
    if history == [] then []
    else
      var n := |history| - 1;
      Under(PrefixOf(history[..n]), LeavesFrom(history[n].node, history[n].pos + 1)) + Above(history[..n])
  }

  ghost function Pending(history: seq<Cursor>, current: Cursor): seq<LeafEntry>
    requires HistoryOk(history)
  {
    Under(PrefixOf(history), LeavesFrom(current.node, current.pos)) + Above(history)
  }

  lemma UnderConcat(prefix: Path, a: seq<LeafEntry>, b: seq<LeafEntry>)
    ensures Under(prefix, a + b) == Under(prefix, a) + Under(prefix, b)
  {}

  lemma UnderPrefixed(prefix: Path, k: string, a: seq<LeafEntry>)
    ensures Under(prefix, Prefixed(k, a)) == Under(prefix + [k], a)
  {
    var l, r := Under(prefix, Prefixed(k, a)), Under(prefix + [k], a);
    forall i | 0 <= i < |l| ensures l[i] == r[i] {
      assert prefix + ([k] + a[i].0) == prefix + [k] + a[i].0;
    }
  }

  /** The cursors form one descent from the top of the document. */
  ghost predicate Linked(root: Doc, history: seq<Cursor>, current: Cursor) {
    && current.Ok() && HistoryOk(history)
    && (var bottom := if history == [] then current else history[0];
        bottom.node == Map(root) && bottom.at == [])
    && (history != [] ==>
          var last := history[|history| - 1];
          current.node == last.Val() && current.at == last.at + [last.pos])
  }

  // ---------- termination of the self-recursive step ----------

  ghost function Size(v: Value): (n: nat)
    ensures n >= 1
    decreases v, |Children(v)| + 1
  {
    if v.IsContainer() then 2 + Weight(v, 0) else 1
  }

  ghost function Weight(v: Value, i: nat): nat
    decreases v, |Children(v)| - i
  {
    if i >= |Children(v)| then 0 else Size(Children(v)[i].1) + Weight(v, i + 1)
  }

  ghost function HistoryWeight(history: seq<Cursor>): nat {
    if history == [] then 0
    else
      var n := |history| - 1;
      1 + Weight(history[n].node, history[n].pos + 1) + HistoryWeight(history[..n])
  }

  ghost function Measure(history: seq<Cursor>, current: Cursor): nat {
    Weight(current.node, current.pos) + HistoryWeight(history)
  }

  // ---------- the three moves ----------

  lemma SplitPending(history: seq<Cursor>, current: Cursor)
    requires HistoryOk(history) && current.Ok() && !current.AtEnd()
    ensures Pending(history, current) ==
            Under(PrefixOf(history) + [current.Key()], Leaves(current.Val())) + Pending(history, current.Bumped())
  {
    hide Children, ToIndex, Leaves, PrefixOf, Above;
    BumpedOk(current);
    var own, later := Leaves(current.Val()), LeavesFrom(current.node, current.pos + 1);
    assert LeavesFrom(current.node, current.pos) == Prefixed(current.Key(), own) + later;
    var pre := PrefixOf(history);
    UnderConcat(pre, Prefixed(current.Key(), own), later);
    UnderPrefixed(pre, current.Key(), own);
  }

  function Descend(c: Cursor): Cursor
    requires !c.AtEnd()
  {
    Cursor(c.Val(), c.at + [c.pos], 0, 0)
  }

  /** Descending into a container leaves the pending leaves as they are. */
  lemma PushStep(root: Doc, history: seq<Cursor>, current: Cursor)
    requires Linked(root, history, current) && !current.AtEnd() && current.Val().IsContainer()
    ensures Linked(root, history + [current], Descend(current))
    ensures Pending(history + [current], Descend(current)) == Pending(history, current)
    ensures Measure(history + [current], Descend(current)) < Measure(history, current)
  {
    PushLinked(root, history, current);
    PushPending(history, current);
    PushLighter(history, current);
  }

  lemma PushLinked(root: Doc, history: seq<Cursor>, current: Cursor)
    requires Linked(root, history, current) && !current.AtEnd() && current.Val().IsContainer()
    ensures Linked(root, history + [current], Descend(current)) && HistoryOk(history + [current])
  {
    hide Children, ToIndex;
    assert HistoryOk(history + [current]);
  }

  lemma PushPending(history: seq<Cursor>, current: Cursor)
    requires HistoryOk(history) && HistoryOk(history + [current])
    requires current.Ok() && !current.AtEnd() && current.Val().IsContainer()
    ensures Pending(history + [current], Descend(current)) == Pending(history, current)
  {
    hide Children, ToIndex;
    var h := history + [current];
    assert h[..|h| - 1] == history;
    assert PrefixOf(h) == PrefixOf(history) + [current.Key()];
    SplitPending(history, current);
    BumpedOk(current);
  }

  lemma PushLighter(history: seq<Cursor>, current: Cursor)
    requires !current.AtEnd() && current.Val().IsContainer()
    ensures Measure(history + [current], Descend(current)) < Measure(history, current)
  {
    hide Children, ToIndex;
    var h := history + [current];
    assert h[..|h| - 1] == history;
    assert Weight(current.node, current.pos) == 2 + Weight(current.Val(), 0) + Weight(current.node, current.pos + 1);
  }

  lemma BeginStep(doc: Doc)
    ensures Linked(doc, [], Cursor(Map(doc), [], 0, 0))
    ensures Pending([], Cursor(Map(doc), [], 0, 0)) == DocLeaves(doc)
  {
    hide Children, Leaves, LeavesFrom;
    var leaves := DocLeaves(doc);
    var under := Under([], leaves);
    forall i | 0 <= i < |under| ensures under[i] == leaves[i] { assert [] + leaves[i].0 == leaves[i].0; }
    assert under == leaves && PrefixOf([]) == [];
  }

  /** So does climbing back out of an exhausted one. */
  lemma PopStep(root: Doc, history: seq<Cursor>, current: Cursor)
    requires Linked(root, history, current) && history != [] && current.AtEnd()
    ensures var n := |history| - 1;
            && Linked(root, history[..n], history[n].Bumped())
            && Pending(history[..n], history[n].Bumped()) == Pending(history, current)
            && Measure(history[..n], history[n].Bumped()) < Measure(history, current)
  {
    hide Children, ToIndex;
    BumpedOk(history[|history| - 1]);
    assert Under(PrefixOf(history), []) == [];
  }

  /** Passing a null skips nothing; passing a leaf drops exactly that leaf. */
  lemma BumpStep(root: Doc, history: seq<Cursor>, current: Cursor)
    requires Linked(root, history, current) && !current.AtEnd() && !current.Val().IsContainer()
    ensures Linked(root, history, current.Bumped())
    ensures Measure(history, current.Bumped()) < Measure(history, current)
    ensures current.Val().Null? ==> Pending(history, current.Bumped()) == Pending(history, current)
    ensures current.Val().Leaf? ==>
              Pending(history, current) ==
              [(PrefixOf(history) + [current.Key()], current.Val().s)] + Pending(history, current.Bumped())
  {
    hide Children, ToIndex;
    BumpedOk(current);
    SplitPending(history, current);
    var pre := PrefixOf(history) + [current.Key()];
    if current.Val().Leaf? {
      assert pre + [] == pre;
      assert Under(pre, Leaves(current.Val())) == [(pre, current.Val().s)];
    } else {
      assert Under(pre, Leaves(current.Val())) == [];
    }
  }

  lemma DonePending(root: Doc, current: Cursor)
    requires Linked(root, [], current) && current.AtEnd()
    ensures Pending([], current) == []
  {}

  lemma LinkedHistory(root: Doc, history: seq<Cursor>, current: Cursor)
    requires Linked(root, history, current)
    ensures HistoryOk(history)
  {}

  lemma InnerCursor(root: Doc, history: seq<Cursor>, current: Cursor)
    requires Linked(root, history, current)
    ensures current.at == [] <==> history == []
  {}

  method StackKeys(history: seq<Cursor>) returns (key: Path)
    requires forall i :: 0 <= i < |history| ==> !history[i].AtEnd()
    ensures key == PrefixOf(history)
  {
    hide Cursor.AtEnd, Cursor.Key, Children;
    key := [];
    for i := 0 to |history|
      invariant |key| == i && forall j :: 0 <= j < i ==> key[j] == history[j].Key()
    {
      key := key + [history[i].Key()];
    }
  }

  /** JsonDict::iterator over one document. */
  class Iterator {
    ghost const root: Doc
    var current: Cursor
    var history: seq<Cursor>
    var recursing: bool

    /** At rest the iterator is at the end or on a leaf. */
    ghost predicate Valid()
      reads this
    {
      && Linked(root, history, current)
      && !recursing
      && (if current.AtEnd() then history == [] else current.Val().Leaf?)
    }

    /** The leaves not yet passed, the one under the cursor first. */
    ghost function Remaining(): seq<LeafEntry>
      requires Linked(root, history, current)
      reads this
    {
      Pending(history, current)
    }

    /** JsonDict::begin(). */
    constructor Begin(doc: Doc)
      ensures root == doc && Valid() && Remaining() == DocLeaves(doc)
    {
      root := doc;
      current := Cursor(Map(doc), [], 0, 0);
      history := [];
      recursing := false;
      new;
      hide Linked, Pending, Children, DocLeaves, Cursor.AtEnd, Cursor.Val;
      BeginStep(doc);
      if !current.AtEnd() {
        recursing := true;
        Advance();
      }
    }

    /** operator++ of the iterator's private logic, called on itself until it can rest. */
    method Advance()
      requires Linked(root, history, current)
      requires !recursing ==> Valid() && Remaining() != []
      modifies this
      ensures Valid()
      ensures Remaining() == if old(recursing) then old(Remaining()) else old(Remaining())[1..]
      decreases Measure(history, current)
    {
      hide Linked, Pending, Measure, Children, Cursor.AtEnd, Cursor.Val, Cursor.Bumped;
      if !recursing {
        EndMeansDone();
        BumpStep(root, history, current);
        current := current.Bumped();
      }
      if current.AtEnd() {
        if history == [] {
          recursing := false;
          return;
        }
        PopStep(root, history, current);
        var popped := history[|history| - 1];
        history := history[..|history| - 1];
        current := popped.Bumped();
        recursing := true;
        Advance();
        return;
      }
      var val := current.Val();
      if val.Map? || val.List? {
        PushStep(root, history, current);
        history := history + [current];
        current := Descend(current);
        recursing := true;
        Advance();
      } else if val.Null? {
        BumpStep(root, history, current);
        current := current.Bumped();
        recursing := true;
        Advance();
      } else {
        recursing := false;
      }
    }

    /** operator== against end(): same container, same position. */
    predicate AtEnd()
      reads this
    {
      current.at == [] && current.AtEnd()
    }

    /** The comparison with end() tells exactly whether leaves remain. */
    lemma EndMeansDone()
      requires Valid()
      ensures AtEnd() <==> Remaining() == []
      ensures AtEnd() <==> current.AtEnd()
    {
      hide Linked, Pending, Children, Cursor.AtEnd, Cursor.Val, Cursor.Bumped;
      InnerCursor(root, history, current);
      if current.AtEnd() { DonePending(root, current); } else { BumpStep(root, history, current); }
    }

    /** key(): the keys of the suspended cursors, then the current one. */
    method Key() returns (key: Path)
      requires Valid() && Remaining() != []
      ensures key == Remaining()[0].0
    {
      EndMeansDone();
      BumpStep(root, history, current);
      LinkedHistory(root, history, current);
      key := StackKeys(history);
      key := key + [current.Key()];
    }

    method Value() returns (s: Scalar)
      requires Valid() && Remaining() != []
      ensures s == Remaining()[0].1
    {
      hide Pending, Children;
      EndMeansDone();
      BumpStep(root, history, current);
      s := current.Val().s;
    }

    /** operator++ from outside. */
    method Next()
      requires Valid() && Remaining() != []
      modifies this
      ensures Valid() && Remaining() == old(Remaining())[1..]
    {
      Advance();
    }
  }

  /** The range-for loop over a document visits its leaf list, whole and in order. */
  method Traverse(doc: Doc) returns (visited: seq<LeafEntry>)
    ensures visited == DocLeaves(doc)
  {
    hide Linked, Pending, DocLeaves, Cursor.AtEnd, Cursor.Val, Children;
    visited := [];
    var it := new Iterator.Begin(doc);
    it.EndMeansDone();
    while !it.AtEnd()
      invariant it.Valid() && fresh(it)
      invariant it.AtEnd() <==> it.Remaining() == []
      invariant visited + it.Remaining() == DocLeaves(doc)
      decreases |it.Remaining()|
    {
      var key := it.Key();
      var val := it.Value();
      visited := visited + [(key, val)];
      it.Next();
      it.EndMeansDone();
    }
  }
}
