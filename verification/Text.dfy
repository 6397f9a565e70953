// Plain text as the RTSP code handles it: searching, lines, white space, case and decimal
// numbers. A character stands for one octet.
module Text {
  import opened Prelude

  const CRLF: string := "\r\n"
  const END: string := "\r\n\r\n"

  // ----- Searching -----

  predicate StartsAt(s: string, i: nat, p: string) {
    i + |p| <= |s| && s[i..i + |p|] == p
  }

  lemma DiffersAt(s: string, i: nat, p: string, k: nat)
    requires k < |p| && (i + k < |s| ==> s[i + k] != p[k])
    ensures !StartsAt(s, i, p)
  {
    if i + |p| <= |s| {
      assert s[i..i + |p|][k] == s[i + k];
    }
  }

  // The leftmost occurrence at or after i.
  function Search(s: string, p: string, i: nat): Option<nat>
    decreases |s| - i
  {
    if i + |p| > |s| then None else if StartsAt(s, i, p) then Some(i) else Search(s, p, i + 1)
  }

  ghost predicate Absent(s: string, p: string, from: nat, to: nat) {
    forall j :: from <= j < to ==> !StartsAt(s, j, p)
  }

  lemma SearchIff(s: string, p: string, i: nat, r: Option<nat>)
    ensures r == Search(s, p, i) <==>
            if r.Some? then i <= r.value && StartsAt(s, r.value, p) && Absent(s, p, i, r.value)
            else Absent(s, p, i, |s| + 1)
    decreases |s| - i
  {
    if i + |p| <= |s| && !StartsAt(s, i, p) {
      SearchIff(s, p, i + 1, r);
    }
  }

  // What was found stays found when more text arrives.
  lemma SearchInPrefix(a: string, b: string, p: string, i: nat)
    requires Search(a, p, i).Some?
    ensures Search(a + b, p, i) == Search(a, p, i)
  {
    var k := Search(a, p, i).value;
    SearchIff(a, p, i, Some(k));
    forall j | 0 <= j <= k ensures StartsAt(a + b, j, p) == StartsAt(a, j, p) {
      assert (a + b)[j..j + |p|] == a[j..j + |p|];
    }
    SearchIff(a + b, p, i, Some(k));
  }

  lemma SearchShifted(a: string, b: string, p: string, i: nat)
    ensures Search(a + b, p, |a| + i) == if Search(b, p, i).Some? then Some(|a| + Search(b, p, i).value) else None
    decreases |b| - i
  {
    if i + |p| <= |b| {
      assert (a + b)[|a| + i..|a| + i + |p|] == b[i..i + |p|];
      if !StartsAt(b, i, p) {
        SearchShifted(a, b, p, i + 1);
      }
    }
  }

  // The first separator behind a part without one is the one that follows.
  lemma FirstSeparator(a: string, c: char, b: string)
    requires Search(a, [c], 0).None?
    ensures Search(a + ([c] + b), [c], 0) == Some(|a|)
  {
    var s := a + ([c] + b);
    SearchIff(a, [c], 0, None);
    forall j: nat | j < |a| ensures !StartsAt(s, j, [c]) {
      assert !StartsAt(a, j, [c]);
      assert s[j..j + 1] == a[j..j + 1];
    }
    assert s[|a|..|a| + 1] == [c];
    SearchIff(s, [c], 0, Some(|a|));
  }

  // ----- Lines -----

  predicate OneLine(s: string) {
    Search(s, CRLF, 0).None?
  }

  lemma AtLineEnd(s: string, j: nat)
    ensures StartsAt(s, j, CRLF) <==> j + 2 <= |s| && s[j] == '\r' && s[j + 1] == '\n'
  {
    if j + 2 <= |s| {
      assert s[j..j + 2] == [s[j], s[j + 1]];
    }
  }

  // The first line end behind a line is its own.
  lemma LineEnd(line: string, rest: string)
    requires OneLine(line)
    ensures Search(line + (CRLF + rest), CRLF, 0) == Some(|line|)
  {
    var s := line + (CRLF + rest);
    SearchIff(line, CRLF, 0, None);
    hide Search, StartsAt;
    forall j: nat | j < |line| ensures !StartsAt(s, j, CRLF) {
      AtLineEnd(s, j);
      AtLineEnd(line, j);
      assert !StartsAt(line, j, CRLF);
      assert s[j] == line[j];
      assert s[j + 1] == if j + 1 < |line| then line[j + 1] else '\r';
    }
    AtLineEnd(s, |line|);
    SearchIff(s, CRLF, 0, Some(|line|));
  }

  // Lines one after the other, closed by an empty one.
  function Head(lines: seq<string>): (r: string)
    ensures |r| >= |CRLF|
  {
    if lines == [] then CRLF else lines[0] + (CRLF + Head(lines[1..]))
  }

  predicate AllLines(lines: seq<string>) {
    forall i :: 0 <= i < |lines| ==> lines[i] != "" && OneLine(lines[i])
  }

  lemma EndIsTwoLineEnds(s: string, j: nat)
    ensures StartsAt(s, j, END) <==> StartsAt(s, j, CRLF) && StartsAt(s, j + 2, CRLF)
  {
    AtLineEnd(s, j);
    AtLineEnd(s, j + 2);
    if j + 4 <= |s| {
      assert s[j..j + 4] == [s[j], s[j + 1], s[j + 2], s[j + 3]];
    }
  }

  // What a text with at least one line ends with is the first empty line in it, whatever follows.
  lemma {:induction false} HeadEnd(lines: seq<string>, rest: string)
    requires lines != [] && AllLines(lines)
    ensures |Head(lines)| >= 4 && Search(Head(lines) + rest, END, 0) == Some(|Head(lines)| - 4)
  {
    hide OneLine, Search, StartsAt;
    var line := lines[0];
    var tail := Head(lines[1..]);
    assert |tail| >= 2 && Head(lines) == line + (CRLF + tail);
    assert Head(lines) + rest == line + (CRLF + (tail + rest));
    if |lines| == 1 {
      EndOfLast(line, rest);
    } else {
      HeadEnd(lines[1..], rest);
      assert tail + rest == lines[1] + (CRLF + (Head(lines[2..]) + rest));
      NotEmptyLine(lines[1], Head(lines[2..]) + rest);
      EndOfMore(line, tail + rest, |tail| - 4);
    }
  }

  lemma EndOfLast(line: string, rest: string)
    requires OneLine(line)
    ensures Search(line + (CRLF + (CRLF + rest)), END, 0) == Some(|line|)
  {
    var s := line + (CRLF + (CRLF + rest));
    LineEnd(line, CRLF + rest);
    SearchIff(s, CRLF, 0, Some(|line|));
    hide Search, OneLine, StartsAt;
    NoEarlierEnd(s, |line|);
    AtLineEnd(s, |line| + 2);
    EndIsTwoLineEnds(s, |line|);
    SearchIff(s, END, 0, Some(|line|));
  }

  lemma EndOfMore(first: string, t: string, m: nat)
    requires OneLine(first) && !StartsAt(t, 0, CRLF) && Search(t, END, 0) == Some(m)
    ensures Search(first + (CRLF + t), END, 0) == Some(|first| + 2 + m)
  {
    hide *;
    var s := first + (CRLF + t);
    var n := |first|;
    BehindLineEnd(first, t);
    SearchBehind(first, t, m);
    SkipFirstLine(s, n, n + 2 + m);
  }

  lemma SearchBehind(first: string, t: string, m: nat)
    requires Search(t, END, 0) == Some(m)
    ensures Search(first + (CRLF + t), END, |first| + 2) == Some(|first| + 2 + m)
  {
    hide Search;
    SearchShifted(first + CRLF, t, END, 0);
    Regroup(first, CRLF, t);
  }

  lemma BehindLineEnd(first: string, t: string)
    requires OneLine(first) && !StartsAt(t, 0, CRLF)
    ensures var s := first + (CRLF + t);
            Absent(s, CRLF, 0, |first|) && !StartsAt(s, |first| + 1, CRLF) && !StartsAt(s, |first| + 2, CRLF)
  {
    var s := first + (CRLF + t);
    LineEnd(first, t);
    SearchIff(s, CRLF, 0, Some(|first|));
    hide Search, StartsAt;
    AtLineEnd(t, 0);
    AtLineEnd(s, |first| + 1);
    AtLineEnd(s, |first| + 2);
  }

  lemma SkipFirstLine(s: string, n: nat, k: nat)
    requires Absent(s, CRLF, 0, n) && !StartsAt(s, n + 1, CRLF) && !StartsAt(s, n + 2, CRLF)
    requires Search(s, END, n + 2) == Some(k)
    ensures Search(s, END, 0) == Some(k)
  {
    hide Search, StartsAt;
    NoEarlierEnd(s, n);
    EndIsTwoLineEnds(s, n);
    EndIsTwoLineEnds(s, n + 1);
    SearchIff(s, END, n + 2, Some(k));
    SearchIff(s, END, 0, Some(k));
  }

  lemma NoEarlierEnd(s: string, k: nat)
    requires Absent(s, CRLF, 0, k)
    ensures Absent(s, END, 0, k)
  {
    forall j | 0 <= j < k ensures !StartsAt(s, j, END) {
      EndIsTwoLineEnds(s, j);
    }
  }

  lemma NotEmptyLine(line: string, rest: string)
    requires line != "" && OneLine(line)
    ensures !StartsAt(line + (CRLF + rest), 0, CRLF)
  {
    LineEnd(line, rest);
    SearchIff(line + (CRLF + rest), CRLF, 0, Some(|line|));
  }

  // ----- White space and case -----

  predicate IsSpace(c: char) {
    c == ' ' || c == '\t' || c == '\n' || c == '\U{000B}' || c == '\U{000C}' || c == '\r'
  }

  function TrimLeft(s: string): string {
    if s != "" && IsSpace(s[0]) then TrimLeft(s[1..]) else s
  }

  function TrimRight(s: string): string {
    if s != "" && IsSpace(s[|s| - 1]) then TrimRight(s[..|s| - 1]) else s
  }

  function TrimSpaces(s: string): string {
    TrimRight(TrimLeft(s))
  }

  // Blanks, and the control characters from tab to carriage return.
  predicate AllSpace(s: string) {
    forall i :: 0 <= i < |s| ==> s[i] == ' ' || '\t' <= s[i] <= '\r'
  }

  predicate Trimmed(s: string) {
    s != "" ==> !IsSpace(s[0]) && !IsSpace(s[|s| - 1])
  }

  // Trimming is the only way to cut white space off both ends until there is none.
  lemma TrimIff(before: string, s: string, after: string)
    requires AllSpace(before) && AllSpace(after) && Trimmed(s)
    ensures TrimSpaces(before + s + after) == s
  {
    TrimLeftOf(before, s + after);
    assert before + s + after == before + (s + after);
    if s == "" {
      TrimLeftOf(after, "");
      assert after + "" == after && s + after == after;
    } else {
      assert !IsSpace((s + after)[0]);
      TrimRightOf(s, after);
    }
  }

  lemma TrimLeftOf(before: string, s: string)
    requires AllSpace(before)
    ensures TrimLeft(before + s) == TrimLeft(s)
  {
    if before != "" {
      assert (before + s)[1..] == before[1..] + s;
      TrimLeftOf(before[1..], s);
    } else {
      assert before + s == s;
    }
  }

  lemma TrimRightOf(s: string, after: string)
    requires AllSpace(after) && s != "" && !IsSpace(s[|s| - 1])
    ensures TrimRight(s + after) == s
  {
    if after != "" {
      assert (s + after)[..|s + after| - 1] == s + after[..|after| - 1];
      TrimRightOf(s, after[..|after| - 1]);
    } else {
      assert s + after == s;
    }
  }

  method Trim(s: string) returns (r: string)
    ensures r == TrimSpaces(s)
  {
    r := s;
    while r != "" && IsSpace(r[0])
      invariant TrimLeft(r) == TrimLeft(s)
      decreases |r|
    {
      r := r[1..];
    }
    assert r == TrimLeft(s);
    while r != "" && IsSpace(r[|r| - 1])
      invariant TrimRight(r) == TrimRight(TrimLeft(s))
      decreases |r|
    {
      r := r[..|r| - 1];
    }
  }

  function Lower(c: char): char {
    if 'A' <= c <= 'Z' then (c as int + 32) as char else c
  }

  predicate EqualFold(a: string, b: string) {
    |a| == |b| && forall i :: 0 <= i < |a| ==> Lower(a[i]) == Lower(b[i])
  }

  // ----- Decimal numbers -----

  const INT_MAX := 0x7FFF_FFFF

  type int32 = x: int | -INT_MAX - 1 <= x <= INT_MAX

  predicate IsDigit(c: char) {
    '0' <= c <= '9'
  }

  function Digit(d: nat): (c: char)
    requires d < 10
    ensures IsDigit(c)
  {
    ('0' as int + d) as char
  }

  function DecimalNat(n: nat): string {
    if n < 10 then [Digit(n)] else DecimalNat(n / 10) + [Digit(n % 10)]
  }

  function Decimal(n: int): string {
    if n < 0 then "-" + DecimalNat(-n) else DecimalNat(n)
  }

  // How many digits the text begins with, and what number they are.
  function DigitCount(s: string): nat {
    if s != "" && IsDigit(s[0]) then 1 + DigitCount(s[1..]) else 0
  }

  predicate AllDigits(s: string) {
    forall i :: 0 <= i < |s| ==> IsDigit(s[i])
  }

  function NumberOf(s: string): nat
    requires AllDigits(s)
  {
    if s == "" then 0 else NumberOf(s[..|s| - 1]) * 10 + (s[|s| - 1] as int - '0' as int)
  }

  lemma DigitCountIs(s: string)
    ensures DigitCount(s) <= |s| && AllDigits(s[..DigitCount(s)])
  {
    if s != "" && IsDigit(s[0]) {
      DigitCountIs(s[1..]);
      assert s[..DigitCount(s)] == [s[0]] + s[1..][..DigitCount(s[1..])];
    }
  }

  lemma CountDigits(digits: string, rest: string)
    requires AllDigits(digits) && (rest != "" ==> !IsDigit(rest[0]))
    ensures DigitCount(digits + rest) == |digits|
  {
    if digits != "" {
      CountDigits(digits[1..], rest);
      RestOfSum(digits, rest);
    } else {
      EmptyPlus(rest);
    }
  }

  // The number a text begins with: white space, a sign, digits; whatever follows is ignored.
  // None when there is no digit.
  function ReadInt(s: string): Option<int> {
    var t := TrimLeft(s);
    var negative := t != "" && t[0] == '-';
    var u := if t != "" && (t[0] == '-' || t[0] == '+') then t[1..] else t;
    var n := DigitCount(u);
    DigitCountIs(u);
    if n == 0 then None else if negative then Some(-(NumberOf(u[..n]) as int)) else Some(NumberOf(u[..n]))
  }

  // std::stoi: None when it throws, because there is no number or it is not an int.
  function Stoi(s: string): Option<int32> {
    var n := ReadInt(s);
    if n.Some? && -INT_MAX - 1 <= n.value <= INT_MAX then Some(n.value) else None
  }

  lemma {:induction false} DecimalNatIs(n: nat)
    ensures |DecimalNat(n)| > 0 && AllDigits(DecimalNat(n)) && NumberOf(DecimalNat(n)) == n
  {
    if n >= 10 {
      DecimalNatIs(n / 10);
      var s := DecimalNat(n);
      assert s[..|s| - 1] == DecimalNat(n / 10);
    }
  }

  // Reading back a printed number gives the number, whatever follows that is not a digit.
  lemma ReadDecimal(n: int, rest: string)
    requires rest != "" ==> !IsDigit(rest[0])
    ensures ReadInt(Decimal(n) + rest) == Some(n)
  {
    hide DecimalNat, NumberOf, DigitCount;
    var m := if n < 0 then -n else n;
    var digits := DecimalNat(m);
    DecimalNatIs(m);
    CountDigits(digits, rest);
    assert IsDigit(digits[0]);
    var s := Decimal(n) + rest;
    assert n >= 0 ==> IsDigit(digits[0]) && IsDigit(s[0]);
    assert !IsSpace(s[0]);
    assert TrimLeft(s) == s;
    var u := if n < 0 then s[1..] else s;
    assert u == digits + rest;
    assert u[..|digits|] == digits;
  }

  // White space, perhaps a sign, and digits as many as there are.
  predicate IsNumber(s: string, before: string, sign: string, digits: string, rest: string) {
    && AllSpace(before) && (sign == "" || sign == "+" || sign == "-")
    && digits != "" && AllDigits(digits) && (rest != "" ==> !IsDigit(rest[0]))
    && s == before + (sign + (digits + rest))
  }

  lemma ReadIntOf(s: string, before: string, sign: string, digits: string, rest: string)
    requires IsNumber(s, before, sign, digits, rest)
    ensures ReadInt(s) == Some(if sign == "-" then -(NumberOf(digits) as int) else NumberOf(digits))
  {
    hide NumberOf, DigitCount, TrimLeft;
    var t := sign + (digits + rest);
    assert IsDigit(digits[0]) && t != "" && !IsSpace(t[0]);
    TrimLeftOf(before, t);
    assert TrimLeft(t) == t by { NothingToTrim(t); }
    assert sign == "" ==> t == digits + rest;
    CountDigits(digits, rest);
    assert (digits + rest)[..|digits|] == digits;
  }

  lemma NothingToTrim(t: string)
    requires t != "" && !IsSpace(t[0])
    ensures TrimLeft(t) == t
  {}

  lemma TrimLeftCuts(s: string) returns (before: string)
    ensures AllSpace(before) && s == before + TrimLeft(s)
  {
    if s != "" && IsSpace(s[0]) {
      var more := TrimLeftCuts(s[1..]);
      before := [s[0]] + more;
    } else {
      before := "";
    }
  }

  lemma DigitsEnd(s: string)
    ensures DigitCount(s) <= |s| && (DigitCount(s) < |s| ==> !IsDigit(s[DigitCount(s)]))
  {
    if s != "" && IsDigit(s[0]) {
      DigitsEnd(s[1..]);
    }
  }

  lemma NumberOfRead(s: string) returns (before: string, sign: string, digits: string, rest: string)
    requires ReadInt(s).Some?
    ensures IsNumber(s, before, sign, digits, rest)
  {
    hide NumberOf, DigitCount, TrimLeft;
    before := TrimLeftCuts(s);
    var t := TrimLeft(s);
    sign := if t != "" && (t[0] == '-' || t[0] == '+') then [t[0]] else "";
    var u := t[|sign|..];
    DigitCountIs(u);
    DigitsEnd(u);
    digits, rest := u[..DigitCount(u)], u[DigitCount(u)..];
    assert digits + rest == u && sign + u == t;
  }

  // std::stoi on every text: it throws if and only if the text does not begin with white space,
  // perhaps a sign, and a digit, or the number that it begins with is not an int; otherwise it
  // gives that number.
  lemma StoiIff(s: string)
    ensures Stoi(s).None? <==>
              forall b, sign, d, r: string :: IsNumber(s, b, sign, d, r) ==>
                !(-INT_MAX - 1 <= (if sign == "-" then -(NumberOf(d) as int) else NumberOf(d)) <= INT_MAX)
    ensures forall b, sign, d, r: string :: IsNumber(s, b, sign, d, r) && Stoi(s).Some? ==>
              Stoi(s).value == if sign == "-" then -(NumberOf(d) as int) else NumberOf(d)
  {
    hide NumberOf, ReadInt, IsNumber;
    forall b, sign, d, r: string | IsNumber(s, b, sign, d, r)
      ensures AllDigits(d) && ReadInt(s) == Some(if sign == "-" then -(NumberOf(d) as int) else NumberOf(d))
    {
      ReadIntOf(s, b, sign, d, r);
      NumberHasDigits(s, b, sign, d, r);
    }
    if ReadInt(s).Some? {
      var b, sign, d, r := NumberOfRead(s);
    }
  }

  lemma NumberHasDigits(s: string, before: string, sign: string, digits: string, rest: string)
    requires IsNumber(s, before, sign, digits, rest)
    ensures AllDigits(digits)
  {}

  lemma StoiDecimal(n: int32, rest: string)
    requires rest != "" ==> !IsDigit(rest[0])
    ensures Stoi(Decimal(n) + rest) == Some(n)
  {
    hide ReadInt, Decimal;
    ReadDecimal(n, rest);
  }

  // A printed number is never empty and holds only digits and a minus sign.
  lemma DecimalChars(n: int)
    ensures Decimal(n) != "" && forall i :: 0 <= i < |Decimal(n)| ==> IsDigit(Decimal(n)[i]) || Decimal(n)[i] == '-'
  {
    DecimalNatIs(if n < 0 then -n else n);
  }
}
