/** A pipeline line of workers, interceptors and splitters, turned into operations and then into
    connections. */
module Pipeline {
  import opened Keys
  import opened PipeParsing
  import opened Bidirectional

  /** What the splitter expression matched: " > ", " < ", " <=...=> " with its steps, or other text. */
  datatype Splitter = Rightwards | Leftwards | BothWays(steps: seq<string>) | Invalid

  datatype OpType = NoType | NormalOp | InvertedOp | BidirectionalOp

  datatype Op = Op(left: string, right: string, subpipe: seq<string>, opType: OpType)

  type Token = (Splitter, string)

  /** A producer, a consumer, and the steps between them. */
  type Connection = (string, string, seq<string>)

  function TypeOf(s: Splitter): OpType {
    match s
    case Rightwards => NormalOp
    case Leftwards => InvertedOp
    case BothWays(_) => BidirectionalOp
    case Invalid => NoType
  }

  /** handleSplitter; None for its exceptions. */
  function AfterSplitter(op: Op, s: Splitter): Option<Op> {
    if s == Invalid || (op.opType != NoType && (op.opType != TypeOf(s) || op.opType == BidirectionalOp)) then None
    else Some(op.(opType := TypeOf(s), subpipe := if s.BothWays? then s.steps else op.subpipe))
  }

  const EMPTY_OP := Op("", "", [], NoType)

  predicate IsInterceptor(part: string) { part != "" && part[0] == '*' }

  /** replace('*', ""). */
  function Strip(part: string): string {
    if part == "" then "" else if part[0] == '*' then Strip(part[1..]) else [part[0]] + Strip(part[1..])
  }

  function Before(ops: seq<Op>, more: Option<seq<Op>>): Option<seq<Op>> {
    if more == None then None else Some(ops + more.value)
  }

  lemma BeforeBefore(ops: seq<Op>, op: Op, more: Option<seq<Op>>)
    ensures Before(ops, Before([op], more)) == Before(ops + [op], more) && Before([], more) == more
  {
    if more.Some? { assert ops + ([op] + more.value) == ops + [op] + more.value && [] + more.value == more.value; }
  }

  /** The operations read from the tokens on, op being under way. */
  function Ops(op: Op, tokens: seq<Token>): Option<seq<Op>>
    decreases |tokens|
  {
    if tokens == [] then Some([])
    else
      var (s, part) := tokens[0];
      match AfterSplitter(op, s)
      case None => None
      case Some(op1) =>
        if IsInterceptor(part) then Ops(op1.(subpipe := op1.subpipe + [Strip(part)]), tokens[1..])
        else Before([op1.(right := part)], Ops(EMPTY_OP.(left := part), tokens[1..]))
  }

  function Init(first: string, tokens: seq<Token>): Option<seq<Op>> {
    if tokens == [] || IsInterceptor(first) || IsInterceptor(tokens[|tokens| - 1].1) then None
    else Ops(EMPTY_OP.(left := first), tokens)
  }

  /** Private::PipeOperation. */
  class PipeOperation {
    var left: string
    var right: string
    var subpipe: seq<string>
    var opType: OpType

    ghost function Value(): Op
      reads this
    {
      Op(left, right, subpipe, opType)
    }

    constructor ()
      ensures Value() == EMPTY_OP
    {
      left, right, subpipe, opType := "", "", [], NoType;
    }

    method Reset()
      modifies this
      ensures Value() == EMPTY_OP
    {
      left, right, subpipe, opType := "", "", [], NoType;
    }

    /** False for an exception. */
    method HandleSplitter(s: Splitter) returns (ok: bool)
      modifies this
      ensures ok <==>
              match s
              case Rightwards => old(opType).NoType? || old(opType).NormalOp?
              case Leftwards => old(opType).NoType? || old(opType).InvertedOp?
              case BothWays(_) => old(opType).NoType?
              case Invalid => false
      ensures ok <==> AfterSplitter(old(Value()), s).Some?
      ensures ok ==> Some(Value()) == AfterSplitter(old(Value()), s)
    {
      if s == Invalid { return false; }
      var dir := TypeOf(s);
      if opType != NoType && (opType != dir || opType == BidirectionalOp) { return false; }
      opType := dir;
      if s.BothWays? { subpipe := s.steps; }
      ok := true;
    }
  }

  /** The token loop of initPipeline; None for its exceptions. */
  method InitPipeline(first: string, tokens: seq<Token>) returns (r: Option<seq<Op>>)
    ensures r == Init(first, tokens)
  {
    if tokens == [] || IsInterceptor(first) || IsInterceptor(tokens[|tokens| - 1].1) { return None; }
    var ops: seq<Op> := [];
    var current := new PipeOperation();
    current.left := first;
    ghost var whole := Ops(EMPTY_OP.(left := first), tokens);
    assert tokens[0..] == tokens;
    BeforeBefore([], current.Value(), whole);
    for i := 0 to |tokens|
      invariant whole == Before(ops, Ops(current.Value(), tokens[i..]))
    {
      assert tokens[i..][0] == tokens[i] && tokens[i..][1..] == tokens[i + 1..];
      var ok := current.HandleSplitter(tokens[i].0);
      if !ok { return None; }
      var part := tokens[i].1;
      if IsInterceptor(part) {
        current.subpipe := current.subpipe + [Strip(part)];
        continue;
      }
      current.right := part;
      BeforeBefore(ops, current.Value(), Ops(EMPTY_OP.(left := part), tokens[i + 1..]));
      ops := ops + [Op(current.left, current.right, current.subpipe, current.opType)];
      current.Reset();
      current.left := part;
    }
    assert ops + [] == ops;
    r := Some(ops);
  }

  // ---------- lines as they are meant ----------

  /** From one worker to the next, through steps. */
  datatype Segment = Segment(way: Splitter, steps: seq<string>, right: string)

  predicate Plain(part: string) { '*' !in part }

  predicate GoodSegment(s: Segment) {
    && s.way != Invalid && !IsInterceptor(s.right)
    && (forall i :: 0 <= i < |s.steps| ==> Plain(s.steps[i]))
    && (s.way.BothWays? ==> s.steps == [])
  }

  function SegmentTokens(s: Segment): seq<Token>
    decreases |s.steps|
  {
    if s.steps == [] then [(s.way, s.right)] else [(s.way, "*" + s.steps[0])] + SegmentTokens(s.(steps := s.steps[1..]))
  }

  /** The line as written, after its first worker. */
  function Written(segs: seq<Segment>): seq<Token> {
    if segs == [] then [] else SegmentTokens(segs[0]) + Written(segs[1..])
  }

  function OpOf(left: string, s: Segment): Op {
    Op(left, s.right, if s.way.BothWays? then s.way.steps else s.steps, TypeOf(s.way))
  }

  function OpsOf(first: string, segs: seq<Segment>): seq<Op>
    decreases |segs|
  {
    if segs == [] then [] else [OpOf(first, segs[0])] + OpsOf(segs[0].right, segs[1..])
  }

  lemma {:induction false} StripPlain(part: string)
    requires Plain(part)
    ensures Strip(part) == part
  {
    if part != "" {
      StripPlain(part[1..]);
      assert [part[0]] + part[1..] == part;
    }
  }

  /** Stripping drops the stars of a text, all of them and nothing else. */
  lemma {:induction false} StripsStars(a: string, b: string)
    ensures Strip(a + b) == Strip(a) + Strip(b) && '*' !in Strip(a)
    ensures Strip("*") == "" && ('*' !in a ==> Strip(a) == a)
  {
    if a == "" {
      assert a + b == b;
    } else {
      assert (a + b)[1..] == a[1..] + b;
      StripsStars(a[1..], b);
      assert a == [a[0]] + a[1..];
    }
  }

  lemma StripStep(part: string)
    requires Plain(part)
    ensures IsInterceptor("*" + part) && Strip("*" + part) == part
  {
    StripPlain(part);
    assert ("*" + part)[1..] == part;
  }

  /** Reading one segment, some of whose steps have been read, and then the rest of the line. */
  lemma {:induction false} SegmentReads(op: Op, s: Segment, rest: seq<Token>)
    requires GoodSegment(s) && (op.opType == NoType || (op.opType == TypeOf(s.way) && !s.way.BothWays?))
    ensures Ops(op, SegmentTokens(s) + rest) ==
            Before([Op(op.left, s.right, if s.way.BothWays? then s.way.steps else op.subpipe + s.steps, TypeOf(s.way))],
                   Ops(EMPTY_OP.(left := s.right), rest))
    decreases |s.steps|
  {
    hide Strip, Plain;
    var tokens := SegmentTokens(s) + rest;
    if s.steps == [] {
      assert tokens[1..] == rest && op.subpipe + s.steps == op.subpipe;
    } else {
      var s1 := s.(steps := s.steps[1..]);
      assert tokens[1..] == SegmentTokens(s1) + rest;
      StripStep(s.steps[0]);
      var op1 := AfterSplitter(op, s.way).value;
      SegmentReads(op1.(subpipe := op1.subpipe + [s.steps[0]]), s1, rest);
      assert op.subpipe + [s.steps[0]] + s1.steps == op.subpipe + s.steps;
    }
  }

  lemma {:induction false} LineReads(first: string, segs: seq<Segment>)
    requires forall i :: 0 <= i < |segs| ==> GoodSegment(segs[i])
    ensures Ops(EMPTY_OP.(left := first), Written(segs)) == Some(OpsOf(first, segs))
    decreases |segs|
  {
    if segs != [] {
      SegmentReads(EMPTY_OP.(left := first), segs[0], Written(segs[1..]));
      LineReads(segs[0].right, segs[1..]);
      assert [] + segs[0].steps == segs[0].steps;
    }
  }

  lemma {:induction false} LastToken(segs: seq<Segment>)
    requires segs != []
    ensures var t := Written(segs); t != [] && t[|t| - 1].1 == segs[|segs| - 1].right
    decreases |segs|
  {
    LastOfSegment(segs[0]);
    if |segs| > 1 { LastToken(segs[1..]); }
  }

  lemma {:induction false} LastOfSegment(s: Segment)
    ensures var t := SegmentTokens(s); t != [] && t[|t| - 1].1 == s.right
    decreases |s.steps|
  {
    if s.steps != [] { LastOfSegment(s.(steps := s.steps[1..])); }
  }

  /** A line is read as the operations it was written for. */
  lemma ReadsAsWritten(first: string, segs: seq<Segment>)
    requires !IsInterceptor(first) && segs != [] && forall i :: 0 <= i < |segs| ==> GoodSegment(segs[i])
    ensures Init(first, Written(segs)) == Some(OpsOf(first, segs))
  {
    LastToken(segs);
    LineReads(first, segs);
  }

  /** Token i may follow the one before it: its splitter is known, and after a step it is the same
      one-way splitter again. */
  predicate Fits(tokens: seq<Token>, i: nat)
    requires i < |tokens|
  {
    && tokens[i].0 != Invalid
    && (i > 0 && IsInterceptor(tokens[i - 1].1) ==> tokens[i].0 == tokens[i - 1].0 && !tokens[i].0.BothWays?)
  }

  /** The operation under way takes the splitter s. */
  predicate Takes(op: Op, s: Splitter) {
    s != Invalid && (op.opType == NoType || (op.opType == TypeOf(s) && !s.BothWays?))
  }

  lemma {:induction false} OpsRead(op: Op, tokens: seq<Token>)
    ensures Ops(op, tokens).Some? <==>
            (tokens == [] || Takes(op, tokens[0].0)) && forall i :: 0 <= i < |tokens| ==> Fits(tokens, i)
    decreases |tokens|
  {
    hide Strip, Fits;
    if tokens != [] {
      var (s, part) := tokens[0];
      var rest := tokens[1..];
      assert Fits(tokens, 0) <==> s != Invalid by { FirstFits(tokens); }
      if Takes(op, s) {
        var op1 := AfterSplitter(op, s).value;
        var next := if IsInterceptor(part) then op1.(subpipe := op1.subpipe + [Strip(part)])
                    else EMPTY_OP.(left := part);
        OpsRead(next, rest);
        assert Ops(op, tokens).Some? <==> Ops(next, rest).Some?;
        RestFits(tokens, next);
      } else {
        assert Ops(op, tokens) == None;
      }
    }
  }

  lemma FirstFits(tokens: seq<Token>)
    requires tokens != []
    ensures Fits(tokens, 0) <==> tokens[0].0 != Invalid
  {}

  lemma RestFits(tokens: seq<Token>, next: Op)
    requires tokens != [] && tokens[0].0 != Invalid
    requires next.opType == if IsInterceptor(tokens[0].1) then TypeOf(tokens[0].0) else NoType
    ensures (|tokens| == 1 || Takes(next, tokens[1].0)) &&
            (forall i :: 0 <= i < |tokens[1..]| ==> Fits(tokens[1..], i)) <==>
            forall i :: 0 <= i < |tokens| ==> Fits(tokens, i)
  {
    var rest := tokens[1..];
    forall i | 0 < i < |rest| ensures Fits(rest, i) <==> Fits(tokens, i + 1) {}
    if |tokens| > 1 {
      assert Takes(next, tokens[1].0) && Fits(rest, 0) <==> Fits(tokens, 1);
      if forall i :: 0 <= i < |tokens| ==> Fits(tokens, i) {
        forall i | 0 <= i < |rest| ensures Fits(rest, i) { assert Fits(tokens, i + 1); }
      }
      if Takes(next, tokens[1].0) && forall i :: 0 <= i < |rest| ==> Fits(rest, i) {
        assert Fits(rest, 0);
        forall i | 0 <= i < |tokens| ensures Fits(tokens, i) { if i > 1 { assert Fits(rest, i - 1); } }
      }
    }
  }

  /** A line is read exactly when neither end is a step, every splitter is known, and after a step the
      same one-way splitter comes again. */
  lemma LineIsRead(first: string, tokens: seq<Token>)
    ensures Init(first, tokens).Some? <==>
            && tokens != [] && !IsInterceptor(first) && !IsInterceptor(tokens[|tokens| - 1].1)
            && forall i :: 0 <= i < |tokens| ==> Fits(tokens, i)
  {
    hide Ops, Fits;
    OpsRead(EMPTY_OP.(left := first), tokens);
    if tokens != [] { FirstFits(tokens); }
  }

  // ---------- connections, and the line read from its other end ----------

  /** The tryConnecting calls for one operation; None for an exception. */
  function Opened(op: Op): Option<seq<Connection>> {
    match op.opType
    case NormalOp => Some([(op.left, op.right, op.subpipe)])
    case InvertedOp => Some([(op.right, op.left, Mirrored(op.subpipe))])
    case BidirectionalOp =>
      var there, back := FakePipe(Normal, op.subpipe), FakePipe(Inverted, op.subpipe);
      if there.None? || back.None? then None
      else Some([(op.left, op.right, there.value), (op.right, op.left, back.value)])
    case NoType => None
  }

  /** The tryConnecting calls for a list of operations. */
  function Connections(ops: seq<Op>): Option<seq<Connection>> {
    if ops == [] then Some([])
    else
      var rest := Connections(ops[1..]);
      if Opened(ops[0]).None? || rest.None? then None else Some(Opened(ops[0]).value + rest.value)
  }

  lemma {:induction false} ConnectionsMore(ops: seq<Op>, op: Op)
    ensures Connections(ops + [op]) ==
            if Connections(ops).None? || Opened(op).None? then None
            else Some(Connections(ops).value + Opened(op).value)
    decreases |ops|
  {
    hide Opened;
    if ops == [] {
      assert ops + [op] == [op] && [op][1..] == [];
      assert Opened(op).Some? ==> Opened(op).value + [] == Opened(op).value;
      assert Opened(op).Some? ==> [] + Opened(op).value == Opened(op).value;
    } else {
      assert (ops + [op])[1..] == ops[1..] + [op];
      ConnectionsMore(ops[1..], op);
      var rest := Connections(ops[1..]);
      if Opened(ops[0]).Some? && rest.Some? && Opened(op).Some? {
        assert Opened(ops[0]).value + (rest.value + Opened(op).value) ==
               Opened(ops[0]).value + rest.value + Opened(op).value;
      }
    }
  }

  lemma {:induction false} ConnectionsStop(ops: seq<Op>, i: nat)
    requires i <= |ops| && Connections(ops[..i]).None?
    ensures Connections(ops).None?
    decreases |ops| - i
  {
    hide Opened;
    if i == |ops| {
      assert ops[..i] == ops;
    } else {
      assert ops[..i + 1] == ops[..i] + [ops[i]];
      ConnectionsMore(ops[..i], ops[i]);
      ConnectionsStop(ops, i + 1);
    }
  }

  /** initPipeline on the operations; None for its exceptions. */
  method ConnectAll(ops: seq<Op>) returns (r: Option<seq<Connection>>)
    ensures r == Connections(ops)
  {
    var made: seq<Connection> := [];
    for i := 0 to |ops|
      invariant Connections(ops[..i]) == Some(made)
    {
      var op := ops[i];
      assert ops[..i + 1] == ops[..i] + [op];
      ConnectionsMore(ops[..i], op);
      match op.opType {
        case NormalOp => made := made + [(op.left, op.right, op.subpipe)];
        case InvertedOp => made := made + [(op.right, op.left, Mirrored(op.subpipe))];
        case BidirectionalOp =>
          var there := MakePipe(Normal, op.subpipe);
          if there.None? {
            ConnectionsStop(ops, i + 1);
            return None;
          }
          var back := MakePipe(Inverted, op.subpipe);
          if back.None? {
            ConnectionsStop(ops, i + 1);
            return None;
          }
          made := made + [(op.left, op.right, there.value)] + [(op.right, op.left, back.value)];
          assert made == Connections(ops[..i]).value + Opened(op).value;
        case NoType =>
          ConnectionsStop(ops, i + 1);
          return None;
      }
    }
    assert ops[..|ops|] == ops;
    r := Some(made);
  }

  /** What is written between two workers makes the connections it shows: " > " one from left to right,
      " < " one from right to left with the steps met in that order, and a bidirectional splitter one
      each way, through the pipes made of its steps. */
  ghost predicate Joins(left: string, s: Segment, made: Option<seq<Connection>>) {
    match s.way
    case Rightwards => made == Some([(left, s.right, s.steps)])
    case Leftwards =>
      && made.Some? && |made.value| == 1 && made.value[0].0 == s.right && made.value[0].1 == left
      && |made.value[0].2| == |s.steps|
      && forall j :: 0 <= j < |s.steps| ==> made.value[0].2[j] == s.steps[|s.steps| - 1 - j]
    case BothWays(steps) =>
      if FakePipe(Normal, steps).None? || FakePipe(Inverted, steps).None? then made == None
      else
        made == Some([(left, s.right, FakePipe(Normal, steps).value), (s.right, left, FakePipe(Inverted, steps).value)])
    case Invalid => made == None
  }

  lemma {:induction false} OpsOfAt(first: string, segs: seq<Segment>, i: nat)
    requires i < |segs|
    ensures |OpsOf(first, segs)| == |segs|
    ensures OpsOf(first, segs)[i] == OpOf(if i == 0 then first else segs[i - 1].right, segs[i])
    decreases |segs|
  {
    if i > 0 { OpsOfAt(segs[0].right, segs[1..], i - 1); } else if |segs| > 1 { OpsOfAt(segs[0].right, segs[1..], 0); }
  }

  /** A well-formed line makes, segment by segment, the connections it shows. */
  lemma LineConnects(first: string, segs: seq<Segment>, i: nat)
    requires !IsInterceptor(first) && i < |segs| && forall j :: 0 <= j < |segs| ==> GoodSegment(segs[j])
    ensures Init(first, Written(segs)).Some? && |Init(first, Written(segs)).value| == |segs|
    ensures Joins(if i == 0 then first else segs[i - 1].right, segs[i], Opened(Init(first, Written(segs)).value[i]))
  {
    hide FakePipe, Init, Written, OpsOf, GoodSegment, IsInterceptor;
    ReadsAsWritten(first, segs);
    OpsOfAt(first, segs, i);
  }

  predicate OneWay(s: Segment) { s.way.Rightwards? || s.way.Leftwards? }

  /** The segment from its other end. */
  function Turned(left: string, s: Segment): Segment
    requires OneWay(s)
  {
    Segment(if s.way.Rightwards? then Leftwards else Rightwards, Mirrored(s.steps), left)
  }

  function LastWorker(first: string, segs: seq<Segment>): string {
    if segs == [] then first else segs[|segs| - 1].right
  }

  /** The segments of the line written from its last worker back to its first. */
  function Backwards(first: string, segs: seq<Segment>): seq<Segment>
    requires forall i :: 0 <= i < |segs| ==> OneWay(segs[i])
    decreases |segs|
  {
    if segs == [] then [] else Backwards(segs[0].right, segs[1..]) + [Turned(first, segs[0])]
  }

  lemma {:induction false} OpsOfMore(first: string, segs: seq<Segment>, s: Segment)
    ensures OpsOf(first, segs + [s]) == OpsOf(first, segs) + [OpOf(LastWorker(first, segs), s)]
    decreases |segs|
  {
    if segs == [] {
      assert segs + [s] == [s] && [s][1..] == [];
    } else {
      assert (segs + [s])[1..] == segs[1..] + [s];
      OpsOfMore(segs[0].right, segs[1..], s);
    }
  }

  lemma TurnedConnects(left: string, s: Segment)
    requires OneWay(s)
    ensures Opened(OpOf(s.right, Turned(left, s))) == Opened(OpOf(left, s))
    ensures Opened(OpOf(left, s)).Some? && |Opened(OpOf(left, s)).value| == 1
  {
    assert Mirrored(Mirrored(s.steps)) == s.steps;
  }

  lemma {:induction false} BackwardsEnds(first: string, segs: seq<Segment>)
    requires segs != [] && forall i :: 0 <= i < |segs| ==> OneWay(segs[i])
    ensures LastWorker(LastWorker(first, segs), Backwards(first, segs)) == first
  {}

  /** Written from its other end, with every splitter turned round, a line makes the same
      connections, with the same steps in the same order, last to first. */
  lemma {:induction false} BackwardsConnectsAlike(first: string, segs: seq<Segment>)
    requires forall i :: 0 <= i < |segs| ==> OneWay(segs[i])
    ensures Connections(OpsOf(first, segs)).Some?
    ensures Connections(OpsOf(LastWorker(first, segs), Backwards(first, segs))) ==
            Some(Mirrored(Connections(OpsOf(first, segs)).value))
    decreases |segs|
  {
    hide Opened, OpOf;
    if segs != [] {
      var s, rest := segs[0], segs[1..];
      BackwardsConnectsAlike(s.right, rest);
      var back := Backwards(s.right, rest);
      var far := LastWorker(first, segs);
      assert far == LastWorker(s.right, rest);
      if rest != [] { BackwardsEnds(s.right, rest); }
      OpsOfMore(far, back, Turned(first, s));
      ConnectionsMore(OpsOf(far, back), OpOf(s.right, Turned(first, s)));
      TurnedConnects(first, s);
      var one := OpOf(first, s);
      var made := Opened(one).value;
      assert made == [made[0]];
      assert ([one] + OpsOf(s.right, rest))[1..] == OpsOf(s.right, rest);
      assert Connections(OpsOf(first, segs)) == Some(made + Connections(OpsOf(s.right, rest)).value);
      MirroredMore(made[0], Connections(OpsOf(s.right, rest)).value);
    }
  }

  lemma MirroredMore<T>(x: T, xs: seq<T>)
    ensures Mirrored([x] + xs) == Mirrored(xs) + [x]
  {}
}
