/** Pipe functions as text: parsing name(arg,arg,...) by counting parentheses, and printing it. */
module PipeParsing {
  import opened Keys

  datatype Call = Call(func: string, data: seq<string>)

  /** \w of the regular expression. */
  predicate IsWordChar(c: char) { 'a' <= c <= 'z' || 'A' <= c <= 'Z' || '0' <= c <= '9' || c == '_' }

  /** The unanchored match finds a word exactly when there is a word character. */
  predicate IsFunc(raw: string) { exists i :: 0 <= i < |raw| && IsWordChar(raw[i]) }

  // ---------- specification ----------

  /** The arguments read from s on, with depth parentheses open and current collected. */
  function Args(s: string, depth: int, current: string): seq<string>
    decreases |s|
  {
    if s == "" then []
    else
      var ch, rest := s[0], s[1..];
      if ch == ' ' then Args(rest, depth, current)
      else if ch == '(' then Args(rest, depth + 1, current + [ch])
      else if ch == ')' then
        if depth == 1 then [current] + Args(rest, 0, [ch]) else Args(rest, depth - 1, current + [ch])
      else if ch == ',' && depth == 1 then [current] + Args(rest, depth, "")
      else Args(rest, depth, current + [ch])
  }

  /** The text before the first opening parenthesis, and the text after it. */
  function Head(raw: string): string { Split(raw, '(')[0] }

  function Tail(raw: string): string { Join(Split(raw, '(')[1..], '(') }

  function Parse(raw: string): Option<Call> {
    if IsFunc(raw) then Some(Call(Head(raw), Args(Tail(raw), 1, ""))) else None
  }

  /** A call as tryCreateBidirConnect prints it. */
  function Print(c: Call): string { c.func + "(" + Join(c.data, ',') + ")" }

  // ---------- the loop ----------

  /** parseFunc; None for the runtime_error. */
  method ParseFunc(rawFunc: string) returns (r: Option<Call>)
    ensures r == Parse(rawFunc)
  {
    var isFunc := false;
    for i := 0 to |rawFunc|
      invariant isFunc <==> exists j :: 0 <= j < i && IsWordChar(rawFunc[j])
    {
      isFunc := isFunc || IsWordChar(rawFunc[i]);
    }
    if !isFunc { return None; }
    var split := Split(rawFunc, '(');
    var rawData := Join(split[1..], '(');
    var data: seq<string> := [];
    var openCount, closeCount := 1, 0;
    var current := "";
    assert rawData[0..] == rawData;
    for i := 0 to |rawData|
      invariant data + Args(rawData[i..], openCount - closeCount, current) == Args(rawData, 1, "")
    {
      var ch := rawData[i];
      assert rawData[i..][0] == ch && rawData[i..][1..] == rawData[i + 1..];
      ghost var was, rest := data, rawData[i + 1..];
      if ch == ' ' {
        continue;
      } else if ch == '(' {
        openCount := openCount + 1;
      } else if ch == ')' {
        closeCount := closeCount + 1;
        if openCount == closeCount {
          assert was + ([current] + Args(rest, 0, ")")) == (was + [current]) + Args(rest, 0, ")");
          data := data + [current];
          current := "";
          assert current + [ch] == ")";
        }
      } else if ch == ',' {
        if openCount - closeCount == 1 {
          assert was + ([current] + Args(rest, 1, "")) == (was + [current]) + Args(rest, 1, "");
          data := data + [current];
          current := "";
          continue;
        }
      }
      current := current + [ch];
    }
    assert rawData[|rawData|..] == "" && data + [] == data;
    r := Some(Call(split[0], data));
  }

  // ---------- well-formed arguments ----------

  /** The depth after one more character, or -1 once a space, an unmatched closing parenthesis or a
      comma outside parentheses has been met. */
  function Step(depth: int, ch: char): int {
    if depth < 0 || ch == ' ' then -1
    else if ch == '(' then depth + 1
    else if ch == ')' then depth - 1
    else if ch == ',' && depth == 0 then -1
    else depth
  }

  function Level(s: string, depth: int): int
    decreases |s|
  {
    if s == "" then depth else Level(s[1..], Step(depth, s[0]))
  }

  /** No spaces, balanced parentheses, and commas only inside them. */
  predicate Clean(arg: string) { Level(arg, 0) == 0 }

  lemma {:induction false} LevelLost(s: string, depth: int)
    requires depth < 0
    ensures Level(s, depth) < 0
    decreases |s|
  {
    if s != "" { LevelLost(s[1..], -1); }
  }

  lemma {:induction false} LevelMore(s: string, depth: int, ch: char)
    ensures Level(s + [ch], depth) == Step(Level(s, depth), ch)
    decreases |s|
  {
    if s == "" {
      assert s + [ch] == [ch];
    } else {
      assert (s + [ch])[1..] == s[1..] + [ch];
      LevelMore(s[1..], Step(depth, s[0]), ch);
    }
  }

  // ---------- printing, then parsing ----------

  /** A clean remainder of an argument is collected whole. */
  lemma {:induction false} ArgsThrough(a: string, k: nat, rest: string, current: string)
    requires Level(a, k) == 0
    ensures Args(a + rest, 1 + k, current) == Args(rest, 1, current + a)
    decreases |a|
  {
    if a == "" {
      assert a + rest == rest && current + a == current;
    } else {
      var k1 := Step(k, a[0]);
      if k1 < 0 {
        LevelLost(a[1..], k1);
        assert false;
      }
      ArgsThrough(a[1..], k1, rest, current + [a[0]]);
      assert (a + rest)[1..] == a[1..] + rest;
      assert current + [a[0]] + a[1..] == current + a;
    }
  }

  lemma {:induction false} ArgsOfJoin(args: seq<string>, rest: string)
    requires args != [] && forall i :: 0 <= i < |args| ==> Clean(args[i])
    ensures Args(Join(args, ',') + (")" + rest), 1, "") == args + Args(rest, 0, ")")
    decreases |args|
  {
    var a := args[0];
    if |args| == 1 {
      ArgsThrough(a, 0, ")" + rest, "");
      assert "" + a == a && (")" + rest)[1..] == rest;
    } else {
      var more := Join(args[1..], ',') + (")" + rest);
      assert Join(args, ',') + (")" + rest) == a + ("," + more);
      ArgsThrough(a, 0, "," + more, "");
      assert "" + a == a && ("," + more)[1..] == more;
      ArgsOfJoin(args[1..], rest);
      assert [a] + (args[1..] + Args(rest, 0, ")")) == args + Args(rest, 0, ")");
    }
  }

  lemma CallParts(name: string, text: string)
    requires '(' !in name
    ensures Head(name + "(" + text) == name && Tail(name + "(" + text) == text
  {
    SplitAtFirst(name, text, '(');
    JoinSplit(text, '(');
    assert Split(name + "(" + text, '(')[1..] == Split(text, '(');
  }

  /** Printing a call with clean arguments and parsing it gives the call back; it is refused
      exactly when it holds no word character. */
  lemma ParsePrint(c: Call)
    requires '(' !in c.func && c.data != [] && forall i :: 0 <= i < |c.data| ==> Clean(c.data[i])
    ensures Parse(Print(c)) == if IsFunc(Print(c)) then Some(c) else None
  {
    var text := Join(c.data, ',') + ")";
    assert Print(c) == c.func + "(" + text;
    CallParts(c.func, text);
    ArgsOfJoin(c.data, "");
    assert ")" + "" == ")" && c.data + [] == c.data;
  }

  lemma {:induction false} NothingAfter(s: string, depth: int, current: string)
    requires '(' !in s && depth <= 0
    ensures Args(s, depth, current) == []
    decreases |s|
  {
    if s == "" {
    } else if s[0] == ' ' {
      NothingAfter(s[1..], depth, current);
    } else {
      NothingAfter(s[1..], if s[0] == ')' then depth - 1 else depth, current + [s[0]]);
    }
  }

  lemma CallThen(c: Call, rest: string)
    requires '(' !in c.func && IsFunc(c.func) && c.data != [] && forall i :: 0 <= i < |c.data| ==> Clean(c.data[i])
    ensures Parse(Print(c) + rest) == Some(Call(c.func, c.data + Args(rest, 0, ")")))
  {
    var text := Join(c.data, ',') + (")" + rest);
    assert Print(c) + rest == c.func + "(" + text;
    CallParts(c.func, text);
    ArgsOfJoin(c.data, rest);
    var i :| 0 <= i < |c.func| && IsWordChar(c.func[i]);
    assert (Print(c) + rest)[i] == c.func[i];
  }

  /** Whatever follows the closing parenthesis is ignored, as long as no parenthesis is opened in it. */
  lemma TrailingIgnored(c: Call, rest: string)
    requires '(' !in c.func && IsFunc(c.func) && c.data != [] && forall i :: 0 <= i < |c.data| ==> Clean(c.data[i])
    requires '(' !in rest
    ensures Parse(Print(c) + rest) == Some(c)
  {
    CallThen(c, rest);
    NothingAfter(rest, 0, ")");
    assert c.data + [] == c.data;
  }

  /** A second pair of parentheses adds an argument, which begins with the closing one of the first. */
  lemma SecondPairIsArgument(c: Call, b: string)
    requires '(' !in c.func && IsFunc(c.func) && c.data != [] && forall i :: 0 <= i < |c.data| ==> Clean(c.data[i])
    requires Clean(b)
    ensures Parse(Print(c) + "(" + b + ")") == Some(Call(c.func, c.data + [")(" + b]))
  {
    var rest := "(" + (b + ")");
    assert Print(c) + "(" + b + ")" == Print(c) + rest;
    CallThen(c, rest);
    assert rest[0] == '(' && rest[1..] == b + ")" && ")" + ['('] == ")(";
    assert Args(rest, 0, ")") == Args(b + ")", 1, ")(");
    ArgsThrough(b, 0, ")", ")(");
    assert Args(")", 1, ")(" + b) == [")(" + b] + Args(")"[1..], 0, ")");
    assert Args(rest, 0, ")") == [")(" + b];
  }

  // ---------- parsing, then printing ----------

  /** normalizeFunc. */
  function NoSpaces(s: string): (r: string)
    ensures ' ' !in r
  {
    if s == "" then "" else if s[0] == ' ' then NoSpaces(s[1..]) else [s[0]] + NoSpaces(s[1..])
  }

  /** The parenthesis that closes the call is the last character but for spaces. */
  predicate Closes(s: string, depth: int)
    decreases |s|
  {
    && s != ""
    && var ch, rest := s[0], s[1..];
       if ch == ')' && depth == 1 then NoSpaces(rest) == ""
       else Closes(rest, if ch == '(' then depth + 1 else if ch == ')' then depth - 1 else depth)
  }

  predicate WellFormed(raw: string) { '(' in raw && Closes(Tail(raw), 1) }

  lemma {:induction false} OnlySpaces(s: string, depth: int, current: string)
    requires NoSpaces(s) == ""
    ensures Args(s, depth, current) == []
    decreases |s|
  {
    if s != "" { OnlySpaces(s[1..], depth, current); }
  }

  /** The arguments are clean and, joined, are the text. */
  ghost predicate Reads(args: seq<string>, text: string) {
    args != [] && (forall i :: 0 <= i < |args| ==> Clean(args[i])) && Join(args, ',') + ")" == text
  }

  lemma ReadsLast(current: string)
    requires Clean(current)
    ensures Reads([current], current + ")")
  {}

  lemma ReadsMore(current: string, more: seq<string>, text: string)
    requires Clean(current) && Reads(more, text)
    ensures Reads([current] + more, current + ("," + text))
  {
    assert ([current] + more)[1..] == more;
    assert Join([current] + more, ',') + ")" == current + ("," + (Join(more, ',') + ")"));
  }

  lemma Shift(a: string, ch: char, b: string)
    ensures (a + [ch]) + b == a + ([ch] + b)
  {}

  lemma Empty(a: string)
    ensures "" + a == a
  {}

  /** Reading to the closing parenthesis yields clean arguments which, joined, are the text. */
  lemma {:induction false} ArgsAreClean(s: string, depth: int, current: string)
    requires depth >= 1 && Closes(s, depth) && Level(current, 0) == depth - 1
    ensures Reads(Args(s, depth, current), current + NoSpaces(s))
    decreases |s|
  {
    hide Reads, Level;
    var ch, rest := s[0], s[1..];
    if ch == ' ' {
      ArgsAreClean(rest, depth, current);
    } else if ch == ')' && depth == 1 {
      OnlySpaces(rest, 0, ")");
      ReadsLast(current);
      assert NoSpaces(s) == ")" && Args(s, depth, current) == [current];
    } else if ch == ',' && depth == 1 {
      LevelNothing();
      ArgsAreClean(rest, 1, "");
      Empty(NoSpaces(rest));
      ReadsMore(current, Args(rest, 1, ""), NoSpaces(rest));
    } else {
      LevelMore(current, 0, ch);
      var d1 := if ch == '(' then depth + 1 else if ch == ')' then depth - 1 else depth;
      ArgsAreClean(rest, d1, current + [ch]);
      Shift(current, ch, NoSpaces(rest));
    }
  }

  lemma LevelNothing()
    ensures Level("", 0) == 0
  {}

  /** Printing a parsed well-formed call strips the spaces of its arguments and changes nothing
      else, and parsing what was printed gives the same call. */
  lemma PrintParse(raw: string)
    requires WellFormed(raw) && IsFunc(raw)
    ensures Parse(raw).Some?
    ensures Print(Parse(raw).value) == Head(raw) + "(" + NoSpaces(Tail(raw))
    ensures Parse(Print(Parse(raw).value)) == Parse(raw)
  {
    var c := Parse(raw).value;
    ArgsAreClean(Tail(raw), 1, "");
    var args := Args(Tail(raw), 1, "");
    assert "" + NoSpaces(Tail(raw)) == NoSpaces(Tail(raw));
    assert Print(c) == Head(raw) + "(" + (Join(args, ',') + ")");
    ParsePrint(c);
    WordsStay(raw);
  }

  lemma {:induction false} WordStays(s: string, i: nat)
    requires i < |s| && IsWordChar(s[i])
    ensures exists j :: 0 <= j < |NoSpaces(s)| && IsWordChar(NoSpaces(s)[j])
    decreases |s|
  {
    if i == 0 {
      assert NoSpaces(s)[0] == s[0];
    } else {
      WordStays(s[1..], i - 1);
      var j :| 0 <= j < |NoSpaces(s[1..])| && IsWordChar(NoSpaces(s[1..])[j]);
      assert NoSpaces(s)[if s[0] == ' ' then j else j + 1] == NoSpaces(s[1..])[j];
    }
  }

  /** Stripping spaces from the arguments does not make the call wordless. */
  lemma WordsStay(raw: string)
    requires IsFunc(raw) && '(' in raw
    ensures IsFunc(Head(raw) + "(" + NoSpaces(Tail(raw)))
  {
    var head, tail := Head(raw), Tail(raw);
    HeadTail(raw);
    var out := head + "(" + NoSpaces(tail);
    var i :| 0 <= i < |raw| && IsWordChar(raw[i]);
    if i < |head| {
      assert out[i] == raw[i];
    } else {
      assert raw[|head|] == '(';
      assert tail[i - |head| - 1] == raw[i];
      WordStays(tail, i - |head| - 1);
      var j :| 0 <= j < |NoSpaces(tail)| && IsWordChar(NoSpaces(tail)[j]);
      assert out[|head| + 1 + j] == NoSpaces(tail)[j];
    }
  }

  lemma SplitMore(s: string, sep: char)
    ensures |Split(s, sep)| == 1 ==> sep !in s
  {
    JoinSplit(s, sep);
    assert sep !in Split(s, sep)[0];
  }

  lemma HeadTail(raw: string)
    requires '(' in raw
    ensures raw == Head(raw) + "(" + Tail(raw)
  {
    JoinSplit(raw, '(');
    SplitMore(raw, '(');
  }

  /** A name without parentheses is a call without arguments; printed and parsed again it has one,
      the empty one. */
  lemma BareNameGainsArgument(name: string)
    requires '(' !in name && IsFunc(name)
    ensures Parse(name) == Some(Call(name, []))
    ensures Parse(Print(Call(name, []))) == Some(Call(name, [""]))
  {
    SplitUnbroken(name, '(');
    assert Split(name, '(')[1..] == [];
    var again := Call(name, [""]);
    assert Print(Call(name, [])) == Print(again);
    assert Clean("");
    ParsePrint(again);
    var i :| 0 <= i < |name| && IsWordChar(name[i]);
    assert Print(again)[i] == name[i];
  }

  // ---------- the first argument ----------

  /** Whatever the text, a first argument that is read is clean. */
  lemma {:induction false} FirstIsClean(s: string, depth: int, current: string)
    requires depth >= 1 && Level(current, 0) == depth - 1 && Args(s, depth, current) != []
    ensures Clean(Args(s, depth, current)[0])
    decreases |s|
  {
    hide Level;
    if s == "" { assert false; }
    var ch, rest := s[0], s[1..];
    if ch == ' ' {
      FirstIsClean(rest, depth, current);
    } else if depth == 1 && (ch == ')' || ch == ',') {
      assert Args(s, depth, current)[0] == current;
    } else {
      LevelMore(current, 0, ch);
      FirstIsClean(rest, if ch == '(' then depth + 1 else if ch == ')' then depth - 1 else depth, current + [ch]);
    }
  }

  /** A clean first argument is read back from the printed call, whatever the others are. */
  lemma FirstOfJoin(args: seq<string>)
    requires args != [] && Clean(args[0])
    ensures Args(Join(args, ',') + ")", 1, "") != [] && Args(Join(args, ',') + ")", 1, "")[0] == args[0]
  {
    var a := args[0];
    var more := if |args| == 1 then ")" else "," + (Join(args[1..], ',') + ")");
    assert Join(args, ',') + ")" == a + more;
    ArgsThrough(a, 0, more, "");
    Empty(a);
  }
}
