/** Bidirectional pipes between two workers: the steps written once and run both ways, and the
    interceptors that wrap a message into a namespace and take it out again. */
module Bidirectional {
  import opened Keys
  import opened JsonValue
  import opened JsonLeaves
  import opened JsonDoc
  import opened PipeParsing

  datatype Direction = Normal | Inverted

  // ---------- the generated pipes ----------

  /** One step for one direction; None for a function that a bidirectional pipe does not take. */
  function Translate(dir: Direction, c: Call): Option<Call> {
    if c.func == "branch" then Some(c.(func := if dir == Normal then "unwrap" else "wrap"))
    else if c.func == "block" || c.func == "allow" then Some(c)
    else if c.func == "rename" || c.func == "remap" then
      Some(c.(data := if dir == Normal then c.data else Mirrored(c.data)))
    else None
  }

  function Mirrored<T>(s: seq<T>): (r: seq<T>)
    ensures |r| == |s| && forall i :: 0 <= i < |s| ==> r[i] == s[|s| - 1 - i]
  {
    seq(|s|, i requires 0 <= i < |s| => s[|s| - 1 - i])
  }

  /** The printed steps in the order written; empty ones are left out. */
  function Steps(dir: Direction, subpipe: seq<string>): Option<seq<string>> {
    if subpipe == [] then Some([])
    else
      var before, item := Steps(dir, subpipe[..|subpipe| - 1]), subpipe[|subpipe| - 1];
      if before == None || item == "" then before
      else if Parse(item) == None || Translate(dir, Parse(item).value) == None then None
      else Some(before.value + [Print(Translate(dir, Parse(item).value).value)])
  }

  function FakePipe(dir: Direction, subpipe: seq<string>): Option<seq<string>> {
    match Steps(dir, subpipe)
    case None => None
    case Some(pipe) => Some(if dir == Inverted then Mirrored(pipe) else pipe)
  }

  /** The loop of tryCreateBidirConnect for one direction; None for its exceptions. */
  method MakePipe(dir: Direction, subpipe: seq<string>) returns (r: Option<seq<string>>)
    ensures r == FakePipe(dir, subpipe)
  {
    var fakePipe: seq<string> := [];
    for i := 0 to |subpipe|
      invariant Steps(dir, subpipe[..i]) == Some(fakePipe)
    {
      assert subpipe[..i + 1][..i] == subpipe[..i];
      var item := subpipe[i];
      if item == "" { continue; }
      var parsed := ParseFunc(item);
      if parsed == None || Translate(dir, parsed.value) == None {
        StepsStop(dir, subpipe, i + 1);
        return None;
      }
      fakePipe := fakePipe + [Print(Translate(dir, parsed.value).value)];
    }
    assert subpipe[..|subpipe|] == subpipe;
    r := Some(if dir == Inverted then Mirrored(fakePipe) else fakePipe);
  }

  lemma {:induction false} StepsStop(dir: Direction, subpipe: seq<string>, i: nat)
    requires i <= |subpipe| && Steps(dir, subpipe[..i]) == None
    ensures Steps(dir, subpipe) == None
    decreases |subpipe| - i
  {
    if i == |subpipe| {
      assert subpipe[..i] == subpipe;
    } else {
      assert subpipe[..i + 1][..i] == subpipe[..i];
      StepsStop(dir, subpipe, i + 1);
    }
  }

  /** The functions a bidirectional pipe takes. */
  predicate Supported(func: string) {
    func == "branch" || func == "block" || func == "allow" || func == "rename" || func == "remap"
  }

  /** A step as it is printed for one direction: a branch unwraps on the way there and wraps on the way
      back, a renaming is turned round on the way back, and the others stay. */
  lemma Translated(dir: Direction, c: Call)
    ensures Translate(dir, c).Some? <==> Supported(c.func)
    ensures c.func == "branch" && dir == Normal ==>
              Print(Translate(dir, c).value) == "unwrap(" + Join(c.data, ',') + ")"
    ensures c.func == "branch" && dir == Inverted ==>
              Print(Translate(dir, c).value) == "wrap(" + Join(c.data, ',') + ")"
    ensures c.func == "block" ==> Print(Translate(dir, c).value) == "block(" + Join(c.data, ',') + ")"
    ensures c.func == "allow" ==> Print(Translate(dir, c).value) == "allow(" + Join(c.data, ',') + ")"
    ensures c.func == "rename" && dir == Normal ==>
              Print(Translate(dir, c).value) == "rename(" + Join(c.data, ',') + ")"
    ensures c.func == "rename" && dir == Inverted ==>
              Print(Translate(dir, c).value) == "rename(" + Join(Mirrored(c.data), ',') + ")"
    ensures c.func == "remap" && dir == Normal ==>
              Print(Translate(dir, c).value) == "remap(" + Join(c.data, ',') + ")"
    ensures c.func == "remap" && dir == Inverted ==>
              Print(Translate(dir, c).value) == "remap(" + Join(Mirrored(c.data), ',') + ")"
  {
    hide Join;
  }

  predicate Accepted(item: string) { item == "" || (Parse(item).Some? && Supported(Parse(item).value.func)) }

  /** The pipe of one direction is made exactly when every step is empty or a call of a supported
      function. Without empty steps it has one step for each, in the order written on the way there and
      in the opposite order on the way back. */
  lemma {:induction false} PipePrints(dir: Direction, subpipe: seq<string>)
    ensures FakePipe(dir, subpipe).Some? <==> forall i :: 0 <= i < |subpipe| ==> Accepted(subpipe[i])
    ensures FakePipe(dir, subpipe).Some? && "" !in subpipe ==>
              var pipe := FakePipe(dir, subpipe).value;
              |pipe| == |subpipe| &&
              forall i :: 0 <= i < |subpipe| ==>
                Prints(dir, subpipe[i], pipe[if dir == Normal then i else |subpipe| - 1 - i])
    decreases |subpipe|
  {
    hide Parse, Translate, Print;
    if subpipe != [] {
      var n := |subpipe| - 1;
      PipePrints(dir, subpipe[..n]);
      assert subpipe == subpipe[..n] + [subpipe[n]];
      if Parse(subpipe[n]).Some? { Translated(dir, Parse(subpipe[n]).value); }
    }
  }

  predicate Prints(dir: Direction, item: string, step: string) {
    Accepted(item) && item != "" && Translate(dir, Parse(item).value) != None &&
    step == Print(Translate(dir, Parse(item).value).value)
  }

  // ---------- the interceptors ----------

  datatype Interceptor = Wrapper(into: string) | Unwrapper(from: string)

  /** tryCreateInterceptor, for the two functions that branch steps become. */
  function Create(step: string): Option<Interceptor> {
    match Parse(step)
    case None => None
    case Some(c) =>
      if c.data == [] then None
      else if c.func == "wrap" then Some(Wrapper(c.data[0]))
      else if c.func == "unwrap" then Some(Unwrapper(c.data[0]))
      else None
  }

  /** WorkerMsg::isEmpty. */
  predicate HasLeaf(d: Doc) { DocLeaves(d) != [] }

  /** QVariant::toMap. */
  function ToMap(v: Value): Doc { if v.Map? then v.m else map[] }

  /** The message an interceptor leaves, or None where operator[] throws. */
  function Changed(i: Interceptor, d: Doc): Option<Doc> {
    match i
    case Wrapper(into) =>
      var p := Split(into, ':');
      if DocCanWrite(map[], p) then Some(DocWrite(map[], p, Map(d))) else None
    case Unwrapper(from) =>
      var p := Split(from, ':');
      if DocCanWrite(d, p) then Some(ToMap(DocGet(d, p))) else None
  }

  /** The message as it leaves the pipe; None when it is not forwarded. */
  function Through(pipe: seq<Interceptor>, d: Doc): Option<Doc> {
    if pipe == [] then Some(d)
    else
      match Changed(pipe[0], d)
      case None => None
      case Some(d1) => if HasLeaf(d1) then Through(pipe[1..], d1) else None
  }

  /** A message passing through interceptors, its JSON replaced in place. */
  class WorkerMsg {
    var json: Doc

    constructor (json: Doc)
      ensures this.json == json
    {
      this.json := json;
    }

    /** onMsgFromWorker of the wrapper or the unwrapper; the result tells whether it forwards. */
    method Intercept(i: Interceptor) returns (forwarded: bool)
      modifies this
      ensures forwarded <==> Changed(i, old(json)).Some? && DocLeaves(Changed(i, old(json)).value) != []
      ensures forwarded ==> Some(json) == Changed(i, old(json))
    {
      match i {
        case Wrapper(into) =>
          var was := json;
          json := map[];
          var p := Split(into, ':');
          if !DocCanWrite(json, p) { return false; }
          json := DocWrite(json, p, Map(was));
        case Unwrapper(from) =>
          var p := Split(from, ':');
          if !DocCanWrite(json, p) { return false; }
          json := ToMap(DocGet(json, p));
      }
      forwarded := DocLeaves(json) != [];
    }

    method Pass(pipe: seq<Interceptor>) returns (arrived: bool)
      modifies this
      ensures arrived <==> Through(pipe, old(json)).Some?
      ensures arrived ==> Some(json) == Through(pipe, old(json))
    {
      for k := 0 to |pipe|
        invariant Through(pipe[k..], json) == Through(pipe, old(json))
      {
        assert pipe[k..][1..] == pipe[k + 1..];
        var forwarded := Intercept(pipe[k]);
        if !forwarded { return false; }
      }
      arrived := true;
    }
  }

  // ---------- one wrapper and its unwrapper ----------

  ghost predicate LeafyChild(v: Value, j: nat) { j < |Children(v)| && Leaves(Children(v)[j].1) != [] }

  lemma {:induction false} SomeLeaf(v: Value, i: nat)
    ensures LeavesFrom(v, i) != [] <==> exists j: nat :: i <= j && LeafyChild(v, j)
    decreases |Children(v)| - i
  {
    hide Children, Leaves;
    if i < |Children(v)| {
      SomeLeaf(v, i + 1);
      assert |LeavesFrom(v, i)| == |Leaves(Children(v)[i].1)| + |LeavesFrom(v, i + 1)|;
      assert LeafyChild(v, i) <==> Leaves(Children(v)[i].1) != [];
      hide LeafyChild, LeavesFrom;
    }
  }

  /** A value written into nothing has a leaf exactly when it had one before. */
  lemma {:induction false} WrittenLeaf(p: Path, x: Value)
    requires CanWrite(Null, p)
    ensures Leaves(Write(Null, p, x)) != [] <==> Leaves(x) != []
    decreases |p|
  {
    if p != [] {
      var y := Write(Null, p[1..], x);
      WrittenLeaf(p[1..], x);
      OnlyChildLeaf(Put(Open(Null, p[0]), p[0], y), p[0], y);
    }
  }

  lemma OneChild(k: string, y: Value)
    ensures Children(Map(map[k := y])) == [(k, y)]
  {
    var m := map[k := y];
    var ks := SortedKeys(m.Keys);
    assert m.Keys == {k} && k in ks;
    OneKey(ks, k);
  }

  lemma LastChild(n: nat, y: Value)
    requires n > 0
    ensures var kids := Children(List(Pad([], n)[n - 1 := y]));
            |kids| == n && kids[n - 1].1 == y && forall j :: 0 <= j < n - 1 ==> kids[j].1 == Null
  {}

  lemma OnlyChildLeaf(c: Value, k: string, y: Value)
    requires StepOk(Null, k) && c == Put(Open(Null, k), k, y)
    ensures Leaves(c) != [] <==> Leaves(y) != []
  {
    hide ToIndex, Children, LeavesFrom;
    SomeLeaf(c, 0);
    if c.Map? {
      OneChild(k, y);
      assert LeafyChild(c, 0) <==> Leaves(y) != [];
    } else {
      LastChild(ToIndex(k) + 1, y);
      assert LeafyChild(c, ToIndex(k)) <==> Leaves(y) != [];
      assert Leaves(Null) == [];
    }
  }

  lemma OneKey(ks: seq<string>, k: string)
    requires k in ks && (forall x :: x in ks ==> x == k) && forall i, j :: 0 <= i < j < |ks| ==> ks[i] != ks[j]
    ensures ks == [k]
  {
    assert ks[0] in ks && ks[|ks| - 1] in ks;
  }

  lemma {:induction false} CanRewrite(v: Value, p: Path, x: Value)
    requires CanWrite(v, p)
    ensures CanWrite(Write(v, p, x), p)
    decreases |p|
  {
    if p != [] {
      CanRewrite(Slot(v, p[0]), p[1..], x);
      PutSlot(v, p[0], Write(Slot(v, p[0]), p[1..], x), p[0]);
    }
  }

  lemma WrapLeaf(p: Path, d: Doc)
    requires DocCanWrite(map[], p)
    ensures HasLeaf(DocWrite(map[], p, Map(d))) <==> HasLeaf(d)
  {
    hide Children, LeavesFrom, Write, CanWrite;
    var below := Write(Null, p[1..], Map(d));
    assert DocWrite(map[], p, Map(d)) == map[p[0] := below];
    OneChild(p[0], below);
    SomeLeaf(Map(map[p[0] := below]), 0);
    assert LeafyChild(Map(map[p[0] := below]), 0) <==> Leaves(below) != [];
    WrittenLeaf(p[1..], Map(d));
  }

  lemma WrapRead(p: Path, d: Doc)
    requires DocCanWrite(map[], p)
    ensures var w := DocWrite(map[], p, Map(d)); DocCanWrite(w, p) && DocGet(w, p) == Map(d)
  {
    WriteThenGet(Null, p[1..], Map(d));
    CanRewrite(Null, p[1..], Map(d));
  }

  lemma UnwrapsWrapped(into: string, d: Doc)
    requires DocCanWrite(map[], Split(into, ':'))
    ensures Changed(Wrapper(into), d).Some?
    ensures var w := Changed(Wrapper(into), d).value;
            (HasLeaf(w) <==> HasLeaf(d)) && Changed(Unwrapper(into), w) == Some(d)
  {
    hide HasLeaf, DocCanWrite, DocWrite, DocGet, Split;
    WrapLeaf(Split(into, ':'), d);
    WrapRead(Split(into, ':'), d);
  }

  /** The wrapped message holds a leaf exactly when the message does, and unwrapping gives the
      message back. */
  lemma UnwrapWrap(into: string, d: Doc)
    requires DocCanWrite(map[], Split(into, ':'))
    ensures Changed(Wrapper(into), d).Some?
    ensures var w := Changed(Wrapper(into), d).value;
            (DocLeaves(w) != [] <==> DocLeaves(d) != []) && Changed(Unwrapper(into), w) == Some(d)
  {
    hide Changed, DocLeaves, Split, DocCanWrite;
    UnwrapsWrapped(into, d);
  }

  // ---------- the whole pipe ----------

  lemma {:induction false} ThroughMore(pipe: seq<Interceptor>, last: Interceptor, d: Doc)
    ensures Through(pipe + [last], d) ==
            match Through(pipe, d) case None => None case Some(d1) => Through([last], d1)
    decreases |pipe|
  {
    if pipe == [] {
      assert pipe + [last] == [last];
    } else {
      assert (pipe + [last])[1..] == pipe[1..] + [last];
      if Changed(pipe[0], d).Some? { ThroughMore(pipe[1..], last, Changed(pipe[0], d).value); }
    }
  }

  function Wrappers(names: seq<string>): (r: seq<Interceptor>)
    ensures |r| == |names| && forall i :: 0 <= i < |r| ==> r[i] == Wrapper(names[|names| - 1 - i])
  {
    seq(|names|, i requires 0 <= i < |names| => Wrapper(names[|names| - 1 - i]))
  }

  function Unwrappers(names: seq<string>): (r: seq<Interceptor>)
    ensures |r| == |names| && forall i :: 0 <= i < |r| ==> r[i] == Unwrapper(names[i])
  {
    seq(|names|, i requires 0 <= i < |names| => Unwrapper(names[i]))
  }

  lemma WrappersSplit(names: seq<string>, front: seq<string>, last: string)
    requires names == front + [last]
    ensures Wrappers(names) == [Wrapper(last)] + Wrappers(front)
    ensures Unwrappers(names) == Unwrappers(front) + [Unwrapper(last)]
  {}

  lemma ThroughOne(first: Interceptor, rest: seq<Interceptor>, d: Doc)
    ensures Through([first] + rest, d) ==
            if Changed(first, d).Some? && HasLeaf(Changed(first, d).value) then Through(rest, Changed(first, d).value)
            else None
  {
    assert ([first] + rest)[1..] == rest;
  }

  lemma ThroughLast(last: Interceptor, d: Doc)
    ensures Through([last], d) ==
            if Changed(last, d).Some? && HasLeaf(Changed(last, d).value) then Changed(last, d) else None
  {
    assert [last] + [] == [last];
    ThroughOne(last, [], d);
  }

  lemma {:induction false} WrapsAndUnwraps(names: seq<string>, d: Doc)
    requires forall i :: 0 <= i < |names| ==> DocCanWrite(map[], Split(names[i], ':'))
    ensures var w := Through(Wrappers(names), d);
            w.Some? && Through(Unwrappers(names), w.value) == Some(d) <==> names == [] || HasLeaf(d)
    ensures names != [] && !HasLeaf(d) ==> Through(Wrappers(names), d) == None
    decreases |names|
  {
    hide Changed, DocCanWrite, HasLeaf;
    if names != [] {
      var n := |names| - 1;
      var front, last := names[..n], names[n];
      hide Through;
      WrappersSplit(names, front, last);
      UnwrapsWrapped(last, d);
      var d1 := Changed(Wrapper(last), d).value;
      ThroughOne(Wrapper(last), Wrappers(front), d);
      if HasLeaf(d) {
        WrapsAndUnwraps(front, d1);
        var w := Through(Wrappers(front), d1);
        ThroughMore(Unwrappers(front), Unwrapper(last), w.value);
        ThroughLast(Unwrapper(last), d1);
      }
    }
  }

  /** Wrapping in the reverse order and unwrapping in the order written gives the message back
      exactly when there is nothing to do or the message has a leaf. */
  lemma ThereAndBack(names: seq<string>, d: Doc)
    requires forall i :: 0 <= i < |names| ==> DocCanWrite(map[], Split(names[i], ':'))
    ensures var w := Through(Wrappers(names), d);
            w.Some? && Through(Unwrappers(names), w.value) == Some(d) <==> names == [] || DocLeaves(d) != []
    ensures names != [] && DocLeaves(d) == [] ==> Through(Wrappers(names), d) == None
  {
    hide Changed, DocCanWrite, DocLeaves, Through;
    WrapsAndUnwraps(names, d);
  }

  // ---------- from the text ----------

  predicate IsBranch(item: string) { Parse(item).Some? && Parse(item).value.func == "branch" }

  /** The path of a branch: its first argument, if it has one. */
  function BranchPath(item: string): string
    requires IsBranch(item)
  {
    var data := Parse(item).value.data;
    if data == [] then "" else data[0]
  }

  predicate AllBranches(subpipe: seq<string>) {
    forall i :: 0 <= i < |subpipe| ==> subpipe[i] == "" || IsBranch(subpipe[i])
  }

  function BranchPaths(subpipe: seq<string>): seq<string>
    requires AllBranches(subpipe)
  {
    if subpipe == [] then []
    else
      var before, item := BranchPaths(subpipe[..|subpipe| - 1]), subpipe[|subpipe| - 1];
      if item == "" then before else before + [BranchPath(item)]
  }

  function Made(dir: Direction, path: string): Interceptor {
    if dir == Normal then Unwrapper(path) else Wrapper(path)
  }

  /** The printed step of a branch makes the interceptor for the path the branch was written
      with. */
  lemma BranchMakes(dir: Direction, item: string)
    requires IsBranch(item)
    ensures Translate(dir, Parse(item).value).Some?
    ensures Create(Print(Translate(dir, Parse(item).value).value)) == Some(Made(dir, BranchPath(item)))
  {
    var data := Parse(item).value.data;
    var name := if dir == Normal then "unwrap" else "wrap";
    var out := Print(Call(name, data));
    assert Translate(dir, Parse(item).value) == Some(Call(name, data));
    var text := Join(data, ',') + ")";
    assert out == name + "(" + text;
    assert '(' !in name && IsWordChar(out[0]);
    CallParts(name, text);
    if data == [] {
      assert text == ")" && Args(text, 1, "") == [""] + Args(text[1..], 0, ")");
    } else {
      assert Level("", 0) == 0;
      FirstIsClean(Tail(item), 1, "");
      FirstOfJoin(data);
    }
  }

  /** The steps make the unwrappers or wrappers of the paths. */
  ghost predicate Makes(dir: Direction, steps: seq<string>, names: seq<string>) {
    |steps| == |names| && forall i :: 0 <= i < |steps| ==> Create(steps[i]) == Some(Made(dir, names[i]))
  }

  lemma MakesMore(dir: Direction, steps: seq<string>, names: seq<string>, step: string, name: string)
    requires Makes(dir, steps, names) && Create(step) == Some(Made(dir, name))
    ensures Makes(dir, steps + [step], names + [name])
  {
    hide Create, Made;
  }

  /** Each printed step makes the interceptor of its branch. */
  lemma {:induction false} StepsMake(dir: Direction, subpipe: seq<string>)
    requires AllBranches(subpipe)
    ensures Steps(dir, subpipe).Some? && Makes(dir, Steps(dir, subpipe).value, BranchPaths(subpipe))
    decreases |subpipe|
  {
    hide Create, BranchPath, Translate, Print, Parse, Made;
    if subpipe != [] {
      var n := |subpipe| - 1;
      StepsMake(dir, subpipe[..n]);
      var item := subpipe[n];
      if item != "" {
        assert IsBranch(item);
        BranchMakes(dir, item);
        MakesMore(dir, Steps(dir, subpipe[..n]).value, BranchPaths(subpipe[..n]),
                  Print(Translate(dir, Parse(item).value).value), BranchPath(item));
        hide Makes, IsBranch;
      }
    }
  }

  function Built(pipe: seq<string>): seq<Interceptor>
    requires forall i :: 0 <= i < |pipe| ==> Create(pipe[i]).Some?
  {
    seq(|pipe|, i requires 0 <= i < |pipe| => Create(pipe[i]).value)
  }

  /** For any list of branches, a message sent through the inverted pipe and back through the
      normal one arrives as it was exactly when it has a leaf or there is no branch. */
  lemma BranchesInvert(subpipe: seq<string>, d: Doc)
    requires AllBranches(subpipe)
    requires forall i :: 0 <= i < |BranchPaths(subpipe)| ==> DocCanWrite(map[], Split(BranchPaths(subpipe)[i], ':'))
    ensures var there, back := FakePipe(Inverted, subpipe), FakePipe(Normal, subpipe);
            && there.Some? && back.Some?
            && (forall i :: 0 <= i < |there.value| ==> Create(there.value[i]).Some?)
            && (forall i :: 0 <= i < |back.value| ==> Create(back.value[i]).Some?)
            && var w := Through(Built(there.value), d);
               (w.Some? && Through(Built(back.value), w.value) == Some(d) <==>
                BranchPaths(subpipe) == [] || DocLeaves(d) != [])
  {
    hide Create, Through, DocCanWrite, DocLeaves, BranchPaths, Steps;
    StepsMake(Inverted, subpipe);
    StepsMake(Normal, subpipe);
    var names := BranchPaths(subpipe);
    assert Built(FakePipe(Inverted, subpipe).value) == Wrappers(names);
    assert Built(FakePipe(Normal, subpipe).value) == Unwrappers(names);
    ThereAndBack(names, d);
  }
}
