/** Which key strings name a list element, and which one. */
module IndexKeys {
  import opened Keys

  predicate Blank(s: string) {
    forall i :: 0 <= i < |s| ==> s[i] == ' ' || s[i] == '\t' || s[i] == '\n' || s[i] == '\r'
  }

  predicate Zeros(s: string) { forall i :: 0 <= i < |s| ==> s[i] == '0' }

  /** The text is n in decimal notation, perhaps with leading zeros, a sign, and blanks around. */
  ghost predicate Spells(text: string, n: int) {
    exists before, sign, zeros, after, m :: SpelledBy(text, n, before, sign, zeros, after, m)
  }

  predicate SpelledBy(text: string, n: int, before: string, sign: string, zeros: string, after: string, m: nat) {
    && Blank(before) && Blank(after) && Zeros(zeros) && (sign == "" || sign == "+" || sign == "-")
    && text == before + (sign + (zeros + Decimal(m))) + after
    && n == (if sign == "-" then 0 - m else m) as int
  }

  // ---------- digits ----------

  lemma {:induction false} ZerosValue(zeros: string)
    requires zeros != "" && Zeros(zeros)
    ensures DigitsValue(zeros) == Some(0)
  {
    if |zeros| > 1 { ZerosValue(zeros[..|zeros| - 1]); }
  }

  lemma {:induction false} SpelledValue(zeros: string, m: nat)
    requires Zeros(zeros)
    ensures DigitsValue(zeros + Decimal(m)) == Some(m)
    decreases m
  {
    var s := zeros + Decimal(m);
    if m < 10 {
      assert s[..|s| - 1] == zeros;
      if zeros != "" { ZerosValue(zeros); }
    } else {
      assert s[..|s| - 1] == zeros + Decimal(m / 10);
      SpelledValue(zeros, m / 10);
    }
  }

  lemma DecimalMore(high: nat, last: char)
    requires IsDigit(last)
    ensures high > 0 ==> Decimal(high * 10 + (last as int - '0' as int)) == Decimal(high) + [last]
    ensures Decimal(last as int - '0' as int) == [last]
  {}

  lemma {:induction false} ValueSpelled(s: string) returns (zeros: string)
    requires DigitsValue(s).Some?
    ensures Zeros(zeros) && s == zeros + Decimal(DigitsValue(s).value)
  {
    var before, last := s[..|s| - 1], s[|s| - 1];
    assert s == before + [last];
    if |s| == 1 {
      zeros := "";
      DecimalMore(0, last);
      assert before == "";
    } else {
      var high := DigitsValue(before).value;
      hide Decimal;
      zeros := ValueSpelled(before);
      DecimalMore(high, last);
      if high == 0 {
        DecimalMore(0, '0');
        zeros := before;
      }
    }
  }

  // ---------- blanks ----------

  lemma {:induction false} TrimParts(s: string) returns (before: string, after: string)
    ensures Blank(before) && Blank(after) && s == before + Trim(s) + after
  {
    if s == "" {
      before, after := "", "";
    } else if IsBlank(s[0]) {
      before, after := TrimParts(s[1..]);
      before := [s[0]] + before;
    } else if IsBlank(s[|s| - 1]) {
      before, after := TrimParts(s[..|s| - 1]);
      after := after + [s[|s| - 1]];
    } else {
      before, after := "", "";
    }
  }

  lemma {:induction false} TrimAround(before: string, t: string, after: string)
    requires Blank(before) && Blank(after) && t != "" && !IsBlank(t[0]) && !IsBlank(t[|t| - 1])
    ensures Trim(before + t + after) == t
    decreases |before| + |after|
  {
    var s := before + t + after;
    if before != "" {
      assert s[1..] == before[1..] + t + after;
      TrimAround(before[1..], t, after);
    } else if after != "" {
      assert s[..|s| - 1] == before + t + after[..|after| - 1];
      TrimAround(before, t, after[..|after| - 1]);
    } else {
      assert s == t;
    }
  }

  // ---------- numbers ----------

  predicate Fits(n: int) { -0x8000_0000_0000_0000 <= n < 0x8000_0000_0000_0000 }

  lemma SignedRead(sign: string, digits: string, m: nat)
    requires sign == "" || sign == "+" || sign == "-"
    requires digits != "" && IsDigit(digits[0]) && DigitsValue(digits) == Some(m)
    ensures var n: int := if sign == "-" then 0 - m else m;
            forall text :: Trim(text) == sign + digits ==> ToLong(text) == if Fits(n) then Some(n) else None
  {
    hide DigitsValue, Trim;
    var t := sign + digits;
    if sign == "" { assert t == digits; } else { assert t[1..] == digits; }
  }

  lemma SpelledIsRead(text: string, n: int)
    requires Spells(text, n)
    ensures ToLong(text) == if Fits(n) then Some(n) else None
  {
    var before, sign, zeros, after, m :| SpelledBy(text, n, before, sign, zeros, after, m);
    hide DigitsValue, Trim, ToLong, Decimal, Spells;
    var digits := zeros + Decimal(m);
    DecimalValue(m);
    SpelledValue(zeros, m);
    assert IsDigit(digits[0]) && digits[|digits| - 1] == Decimal(m)[|Decimal(m)| - 1];
    var t := sign + digits;
    assert t != "" && t[|t| - 1] == digits[|digits| - 1] && !IsBlank(t[0]);
    TrimAround(before, t, after);
    SignedRead(sign, digits, m);
  }

  lemma ToLongParts(text: string) returns (sign: string, digits: string)
    requires ToLong(text).Some?
    ensures Trim(text) == sign + digits && (sign == "" || sign == "+" || sign == "-")
    ensures DigitsValue(digits).Some? && Fits(ToLong(text).value)
    ensures var m: int := DigitsValue(digits).value; ToLong(text).value == if sign == "-" then 0 - m else m
  {
    hide DigitsValue, Trim;
    var t := Trim(text);
    if t != "" && (t[0] == '-' || t[0] == '+') {
      sign, digits := [t[0]], t[1..];
    } else {
      sign, digits := "", t;
    }
  }

  lemma ReadIsSpelled(text: string)
    requires ToLong(text).Some?
    ensures Spells(text, ToLong(text).value) && Fits(ToLong(text).value)
  {
    hide DigitsValue, Trim, Decimal, Zeros, Blank, ToLong;
    var before, after := TrimParts(text);
    var sign, digits := ToLongParts(text);
    var zeros := ValueSpelled(digits);
    assert SpelledBy(text, ToLong(text).value, before, sign, zeros, after, DigitsValue(digits).value);
  }

  /** A key names list element n exactly when it is n spelled in brackets: any key that is not reads as
      minus one, as does a number that 64 bits do not hold. */
  lemma IndexExactly(key: string, n: int)
    requires n != -1
    ensures ToIndex(key) == n <==>
            Fits(n) && |key| >= 3 && key[0] == '[' && key[|key| - 1] == ']' && Spells(key[1..|key| - 1], n)
  {
    hide ToLong;
    if |key| >= 3 && key[0] == '[' && key[|key| - 1] == ']' {
      var text := key[1..|key| - 1];
      if ToLong(text).Some? { ReadIsSpelled(text); }
      if Spells(text, n) { SpelledIsRead(text, n); }
    }
  }
}
