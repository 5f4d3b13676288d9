/** Key strings: joining and splitting key paths, the textual form "[n]" of a list
    index, and the order in which a QMap visits its string keys. */
module Keys {

  datatype Option<+T> = None | Some(value: T)

  type Path = seq<string>

  // ---------- joining and splitting ----------

  /** QStringList::join with a one-character separator. */
  function Join(parts: seq<string>, sep: char): string {
    if |parts| == 0 then ""
    else if |parts| == 1 then parts[0]
    else parts[0] + [sep] + Join(parts[1..], sep)
  }

  /** QString::split with a one-character separator; the empty string gives one empty part. */
  function Split(s: string, sep: char): (parts: seq<string>)
    ensures |parts| >= 1
    ensures forall i :: 0 <= i < |parts| ==> sep !in parts[i]
  {
    if s == "" then [""]
    else if s[0] == sep then [""] + Split(s[1..], sep)
    else
      var rest := Split(s[1..], sep);
      [[s[0]] + rest[0]] + rest[1..]
  }

  lemma {:induction false} SplitUnbroken(s: string, sep: char)
    requires sep !in s
    ensures Split(s, sep) == [s]
  {
    if s != "" {
      SplitUnbroken(s[1..], sep);
      assert [s[0]] + s[1..] == s;
    }
  }

  lemma {:induction false} SplitAtFirst(head: string, tail: string, sep: char)
    requires sep !in head
    ensures Split(head + [sep] + tail, sep) == [head] + Split(tail, sep)
  {
    var s := head + [sep] + tail;
    if head == "" {
      assert s[1..] == tail;
    } else {
      SplitAtFirst(head[1..], tail, sep);
      assert s[1..] == head[1..] + [sep] + tail;
      assert [head[0]] + head[1..] == head;
    }
  }

  /** Splitting undoes joining exactly when no part holds the separator. */
  lemma {:induction false} SplitJoin(parts: seq<string>, sep: char)
    requires |parts| >= 1
    ensures Split(Join(parts, sep), sep) == parts <==> forall i :: 0 <= i < |parts| ==> sep !in parts[i]
  {
    if forall i :: 0 <= i < |parts| ==> sep !in parts[i] {
      if |parts| == 1 {
        SplitUnbroken(parts[0], sep);
      } else {
        SplitJoin(parts[1..], sep);
        SplitAtFirst(parts[0], Join(parts[1..], sep), sep);
        assert [parts[0]] + parts[1..] == parts;
      }
    }
  }

  /** Joining undoes splitting. */
  lemma {:induction false} JoinSplit(s: string, sep: char)
    ensures Join(Split(s, sep), sep) == s
  {
    if s != "" {
      JoinSplit(s[1..], sep);
      var rest := Split(s[1..], sep);
      if s[0] == sep {
        assert Split(s, sep)[1..] == rest;
      } else {
        var parts := Split(s, sep);
        assert parts[1..] == rest[1..];
        assert s == [s[0]] + s[1..];
      }
    }
  }

  // ---------- list indices as keys ----------

  predicate IsDigit(c: char) { '0' <= c <= '9' }

  function Decimal(n: nat): string {
    if n < 10 then ['0' + n as char] else Decimal(n / 10) + ['0' + (n % 10) as char]
  }

  /** The number a run of digits spells, if s is one. */
  function DigitsValue(s: string): Option<nat> {
    if s == "" || !IsDigit(s[|s| - 1]) then None
    else if |s| == 1 then Some(s[0] as int - '0' as int)
    else
      var high := DigitsValue(s[..|s| - 1]);
      if high.None? then None else Some(high.value * 10 + (s[|s| - 1] as int - '0' as int))
  }

  lemma {:induction false} DecimalValue(n: nat)
    ensures Decimal(n) != "" && IsDigit(Decimal(n)[0]) && IsDigit(Decimal(n)[|Decimal(n)| - 1])
    ensures DigitsValue(Decimal(n)) == Some(n)
  {
    if n >= 10 {
      DecimalValue(n / 10);
      assert Decimal(n)[..|Decimal(n)| - 1] == Decimal(n / 10);
    }
  }

  predicate IsBlank(c: char) { c == ' ' || c == '\t' || c == '\n' || c == '\r' }

  function Trim(s: string): string {
    if s == "" then s
    else if IsBlank(s[0]) then Trim(s[1..])
    else if IsBlank(s[|s| - 1]) then Trim(s[..|s| - 1])
    else s
  }

  /** QString::toLong in base ten: blanks around an optionally signed run of digits, 64 bits wide. */
  function ToLong(s: string): Option<int> {
    var t := Trim(s);
    var signed := t != "" && (t[0] == '-' || t[0] == '+');
    var digits := if signed then t[1..] else t;
    match DigitsValue(digits)
    case None => None
    case Some(n) =>
      var value: int := if signed && t[0] == '-' then 0 - n else n;
      if -0x8000_0000_0000_0000 <= value < 0x8000_0000_0000_0000 then Some(value) else None
  }

  /** JsonDict::toIndex: the number inside "[...]", or -1 for any other key. */
  function ToIndex(key: string): int {
    if |key| >= 3 && key[0] == '[' && key[|key| - 1] == ']' then
      var n := ToLong(key[1..|key| - 1]);
      if n.Some? then n.value else -1
    else -1
  }

  /** The key an iterator reports for the list element with counter n. */
  function IndexKey(n: nat): string { "[" + Decimal(n) + "]" }

  lemma IndexKeyIndex(n: nat)
    requires n < 0x8000_0000_0000_0000
    ensures ToIndex(IndexKey(n)) == n
  {
    DecimalValue(n);
    var k := IndexKey(n);
    assert k[1..|k| - 1] == Decimal(n);
    assert Trim(Decimal(n)) == Decimal(n);
  }

  /** A key that names a list element does so in the iterator's own spelling. */
  predicate Canonical(key: string) {
    ToIndex(key) == -1 || (ToIndex(key) >= 0 && key == IndexKey(ToIndex(key)))
  }

  predicate CanonicalPath(p: Path) { forall i :: 0 <= i < |p| ==> Canonical(p[i]) }

  /** One path is a prefix of the other. */
  predicate Comparable(p: Path, q: Path) { p <= q || q <= p }

  // ---------- the order of map keys ----------

  /** QString's operator<=: lexicographic by code unit. */
  predicate AtMost(a: string, b: string) {
    a == "" || (b != "" && (a[0] < b[0] || (a[0] == b[0] && AtMost(a[1..], b[1..]))))
  }

  /** One string comes before another where the first characters in which they differ say so, or as
      a beginning of it. */
  lemma {:induction false} AtFirstDifference(a: string, b: string, k: nat)
    requires k <= |a| && k <= |b| && a[..k] == b[..k]
    ensures k == |a| ==> AtMost(a, b)
    ensures k == |b| ==> (AtMost(a, b) <==> a == b)
    ensures k < |a| && k < |b| && a[k] != b[k] ==> (AtMost(a, b) <==> (a[k] as int) < b[k] as int)
  {
    if k > 0 {
      assert a[0] == a[..k][0] == b[..k][0] == b[0];
      assert a[1..][..k - 1] == a[..k][1..] && b[1..][..k - 1] == b[..k][1..];
      AtFirstDifference(a[1..], b[1..], k - 1);
      assert a == [a[0]] + a[1..] && b == [b[0]] + b[1..];
    }
  }

  lemma {:induction false} AtMostTotal(a: string, b: string)
    ensures AtMost(a, b) || AtMost(b, a)
  {
    if a != "" && b != "" && a[0] == b[0] { AtMostTotal(a[1..], b[1..]); }
  }

  lemma {:induction false} AtMostAntisymmetric(a: string, b: string)
    requires AtMost(a, b) && AtMost(b, a)
    ensures a == b
  {
    if a != "" && b != "" {
      AtMostAntisymmetric(a[1..], b[1..]);
      assert a == [a[0]] + a[1..] && b == [b[0]] + b[1..];
    }
  }

  lemma {:induction false} AtMostTransitive(a: string, b: string, c: string)
    requires AtMost(a, b) && AtMost(b, c)
    ensures AtMost(a, c)
  {
    if a != "" && a[0] == b[0] && b[0] == c[0] { AtMostTransitive(a[1..], b[1..], c[1..]); }
  }

  predicate IsLeast(k: string, s: set<string>) { k in s && forall j :: j in s ==> AtMost(k, j) }

  lemma {:induction false} LeastKeyExists(s: set<string>) returns (k: string)
    requires s != {}
    ensures IsLeast(k, s)
  {
    var x :| x in s;
    var rest := s - {x};
    AtMostTotal(x, x);
    if rest == {} {
      assert s == {x};
      k := x;
    } else {
      var y := LeastKeyExists(rest);
      AtMostTotal(x, y);
      k := if AtMost(x, y) then x else y;
      forall j | j in s ensures AtMost(k, j) {
        if j != x && k == x { AtMostTransitive(x, y, j); }
      }
    }
  }

  function LeastKey(s: set<string>): (k: string)
    requires s != {}
    ensures IsLeast(k, s)
  {
    assert exists k :: IsLeast(k, s) by { var k := LeastKeyExists(s); }
    assert forall a, b | IsLeast(a, s) && IsLeast(b, s) :: a == b by {
      forall a, b | IsLeast(a, s) && IsLeast(b, s) ensures a == b { AtMostAntisymmetric(a, b); }
    }
    var k :| k in s && IsLeast(k, s);
    k
  }

  /** The keys of a QMap in the order its iterators visit them. */
  function SortedKeys(s: set<string>): (ks: seq<string>)
    ensures |ks| == |s|
    ensures forall k :: k in ks <==> k in s
    ensures forall i, j :: 0 <= i < j < |ks| ==> ks[i] != ks[j] && AtMost(ks[i], ks[j])
  {
    if s == {} then []
    else
      var k := LeastKey(s);
      [k] + SortedKeys(s - {k})
  }
}
