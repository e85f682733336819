/** C strings as values: splitting at spaces, reading and printing decimal numbers. */
module CStrings {
  import opened Words

  /** The C string that starts at a position of a buffer. */
  function CStr(b: seq<char>, at: nat): (s: string)
    ensures '\0' !in s
    decreases |b| - at
  {
    if at >= |b| || b[at] == '\0' then "" else [b[at]] + CStr(b, at + 1)
  }

  lemma CStrStarts(b: seq<char>, at: nat)
    requires at < |b| && b[at] != '\0'
    ensures CStr(b, at) == [b[at]] + CStr(b, at + 1)
  {
  }

  /** Buffers equal from `at` up to a common NUL hold the same string there. */
  lemma {:induction false} CStrOnlyReadsTo(b: seq<char>, c: seq<char>, at: nat, end: nat)
    requires at <= end < |b| && |b| == |c| && b[end] == '\0' && b[at..end + 1] == c[at..end + 1]
    ensures CStr(b, at) == CStr(c, at)
    decreases end - at
  {
    assert b[at] == b[at..end + 1][0] == c[at..end + 1][0] == c[at];
    if at < end && b[at] != '\0' {
      assert b[at + 1..end + 1] == b[at..end + 1][1..];
      assert c[at + 1..end + 1] == c[at..end + 1][1..];
      CStrOnlyReadsTo(b, c, at + 1, end);
    }
  }

  /** A NUL-free stretch followed by a NUL is the string there. */
  lemma {:induction false} CStrIs(b: seq<char>, at: nat, s: string)
    requires at + |s| < |b| && b[at..at + |s|] == s && b[at + |s|] == '\0' && '\0' !in s
    ensures CStr(b, at) == s
    decreases |s|
  {
    if s != "" {
      assert b[at] == s[0];
      assert b[at + 1..at + 1 + |s[1..]|] == b[at..at + |s|][1..];
      CStrIs(b, at + 1, s[1..]);
    }
  }

  // --- Splitting at spaces ---------------------------------------------------------------------

  /** Length of the space-free prefix. */
  function WordLen(s: string): (n: nat)
    ensures n <= |s| && ' ' !in s[..n] && (n < |s| ==> s[n] == ' ')
  {
    if s == "" || s[0] == ' ' then 0 else 1 + WordLen(s[1..])
  }

  /** The maximal space-free runs, in order. */
  function Split(s: string): seq<string> {
    if s == "" then []
    else if s[0] == ' ' then Split(s[1..])
    else [s[..WordLen(s)]] + Split(s[WordLen(s)..])
  }

  predicate Word(w: string) {
    w != "" && ' ' !in w
  }

  lemma {:induction false} SplitGivesWords(s: string)
    ensures forall w :: w in Split(s) ==> Word(w) && forall c :: c in w ==> c in s
    decreases |s|
  {
    if s == "" {
    } else if s[0] == ' ' {
      SplitGivesWords(s[1..]);
    } else {
      SplitGivesWords(s[WordLen(s)..]);
    }
  }

  lemma {:induction false} WordLenOf(w: string, rest: string)
    requires ' ' !in w && (rest != "" ==> rest[0] == ' ')
    ensures WordLen(w + rest) == |w|
  {
    if w == "" {
      assert w + rest == rest;
    } else {
      assert (w + rest)[1..] == w[1..] + rest;
      WordLenOf(w[1..], rest);
    }
  }

  lemma SplitWord(w: string, rest: string)
    requires Word(w) && (rest != "" ==> rest[0] == ' ')
    ensures Split(w + rest) == [w] + Split(rest)
  {
    WordLenOf(w, rest);
    assert (w + rest)[..|w|] == w && (w + rest)[|w|..] == rest;
  }

  function Spaces(n: nat): (s: string)
    ensures |s| == n && forall c :: c in s ==> c == ' '
  {
    seq(n, _ => ' ')
  }

  lemma {:induction false} SplitSkips(n: nat, rest: string)
    ensures Split(Spaces(n) + rest) == Split(rest)
  {
    if n == 0 {
      assert Spaces(0) + rest == rest;
    } else {
      assert (Spaces(n) + rest)[1..] == Spaces(n - 1) + rest;
      SplitSkips(n - 1, rest);
    }
  }

  /** Words laid out with gaps[i] spaces before the i-th and the last gap after the last. */
  function Layout(words: seq<string>, gaps: seq<nat>): string
    requires |gaps| == |words| + 1
  {
    if words == [] then Spaces(gaps[0])
    else Spaces(gaps[0]) + words[0] + Layout(words[1..], gaps[1..])
  }

  /** Words, separated by at least one space. */
  predicate Spaced(words: seq<string>, gaps: seq<nat>) {
    && |gaps| == |words| + 1
    && (forall w :: w in words ==> Word(w))
    && (forall i :: 0 < i < |words| ==> gaps[i] > 0)
  }

  /** Splitting undoes any layout, and nothing is lost or invented. */
  lemma {:induction false} SplitUndoesLayout(words: seq<string>, gaps: seq<nat>)
    requires Spaced(words, gaps)
    ensures Split(Layout(words, gaps)) == words
  {
    if words == [] {
      SplitSkips(gaps[0], "");
      assert Spaces(gaps[0]) + "" == Spaces(gaps[0]);
    } else {
      var rest := Layout(words[1..], gaps[1..]);
      SplitUndoesLayout(words[1..], gaps[1..]);
      assert Spaces(gaps[0]) + words[0] + rest == Spaces(gaps[0]) + (words[0] + rest);
      SplitSkips(gaps[0], words[0] + rest);
      assert rest != "" ==> rest[0] == ' ';
      SplitWord(words[0], rest);
    }
  }

  /** Only the space separates. */
  lemma SplitExamples()
    ensures Split(" tx  1 ") == ["tx", "1"] && Split("a\tb") == ["a\tb"] && Split("") == Split("  ") == []
  {
    assert Spaces(1) == " " && Spaces(2) == "  ";
    var words, gaps: seq<nat> := ["tx", "1"], [1, 2, 1];
    assert words[1..] == ["1"] && gaps[1..] == [2, 1] && gaps[1..][1..] == [1] && words[1..][1..] == [];
    assert Layout([], [1]) == " " && Layout(["1"], [2, 1]) == "  1 ";
    assert Layout(words, gaps) == " tx  1 ";
    SplitUndoesLayout(words, gaps);
    SplitWord("a\tb", "");
    assert "a\tb" + "" == "a\tb";
    SplitSkips(2, "");
    assert Spaces(2) + "" == "  ";
  }

  /** The spaces before each word of a line, and after the last. */
  function Gaps(s: string): (gaps: seq<nat>)
    ensures |gaps| == |Split(s)| + 1
  {
    if s == "" then [0]
    else if s[0] == ' ' then var g := Gaps(s[1..]); [g[0] + 1] + g[1..]
    else [0] + Gaps(s[WordLen(s)..])
  }

  lemma {:induction false} LayoutAddsOnlySpaces(words: seq<string>, gaps: seq<nat>)
    requires |gaps| == |words| + 1 && forall w :: w in words ==> '\0' !in w
    ensures '\0' !in Layout(words, gaps)
  {
    if words != [] {
      assert words[0] in words;
      LayoutAddsOnlySpaces(words[1..], gaps[1..]);
    }
  }

  lemma WiderLayout(words: seq<string>, gaps: seq<nat>)
    requires Spaced(words, gaps)
    ensures var wider := [gaps[0] + 1] + gaps[1..];
      Spaced(words, wider) && Layout(words, wider) == " " + Layout(words, gaps)
  {
    var wider := [gaps[0] + 1] + gaps[1..];
    assert wider[1..] == gaps[1..];
    assert Spaces(gaps[0] + 1) == " " + Spaces(gaps[0]);
    assert forall i :: 0 < i < |gaps| ==> wider[i] == gaps[i];
  }

  lemma LongerLayout(w: string, words: seq<string>, gaps: seq<nat>)
    requires Spaced(words, gaps) && Word(w) && (words != [] ==> gaps[0] > 0)
    ensures Spaced([w] + words, [0] + gaps) && Layout([w] + words, [0] + gaps) == w + Layout(words, gaps)
  {
    assert ([w] + words)[1..] == words && ([0] + gaps)[1..] == gaps;
    assert Spaces(0) == "";
  }

  /** Every line is a layout of its split: the words are the maximal runs, and there are no others. */
  lemma {:induction false} LineIsLayoutOfSplit(s: string)
    ensures Spaced(Split(s), Gaps(s)) && Layout(Split(s), Gaps(s)) == s
    decreases |s|
  {
    hide Split, Gaps, WordLen, Spaced, Layout;
    if s == "" {
      EmptyLine();
    } else if s[0] == ' ' {
      FirstSpace(s);
      LineIsLayoutOfSplit(s[1..]);
      WiderLayout(Split(s[1..]), Gaps(s[1..]));
      assert s == " " + s[1..];
    } else {
      FirstWord(s);
      var n := WordLen(s);
      var rest := s[n..];
      LineIsLayoutOfSplit(rest);
      LongerLayout(s[..n], Split(rest), Gaps(rest));
      assert s == s[..n] + rest;
    }
  }

  lemma EmptyLine()
    ensures Spaced(Split(""), Gaps("")) && Layout(Split(""), Gaps("")) == ""
  {
  }

  lemma FirstSpace(s: string)
    requires s != "" && s[0] == ' '
    ensures Split(s) == Split(s[1..]) && Gaps(s) == [Gaps(s[1..])[0] + 1] + Gaps(s[1..])[1..]
  {
  }

  lemma FirstWord(s: string)
    requires s != "" && s[0] != ' '
    ensures var n := WordLen(s);
      && n > 0 && Word(s[..n])
      && Split(s) == [s[..n]] + Split(s[n..]) && Gaps(s) == [0] + Gaps(s[n..])
      && (Split(s[n..]) != [] ==> Gaps(s[n..])[0] > 0)
  {
  }

  // --- Decimal numbers -------------------------------------------------------------------------

  predicate IsDigit(c: char) {
    '0' <= c <= '9'
  }

  function DigitValue(c: char): nat
    requires IsDigit(c)
  {
    (c - '0') as int
  }

  /** isspace in the C locale. */
  predicate IsSpace(c: char) {
    c == ' ' || '\t' <= c <= '\r'
  }

  predicate AllDigits(s: string) {
    forall c :: c in s ==> IsDigit(c)
  }

  function Value(s: string): nat
    requires AllDigits(s)
  {
    if s == "" then 0
    else
      assert s[|s| - 1] in s;
      Value(s[..|s| - 1]) * 10 + DigitValue(s[|s| - 1])
  }

  function SkipSpace(s: string): (r: string)
    ensures |r| <= |s|
  {
    if s != "" && IsSpace(s[0]) then SkipSpace(s[1..]) else s
  }

  function Leading(s: string): (r: string)
    ensures AllDigits(r) && |r| <= |s|
  {
    if s != "" && IsDigit(s[0]) then [s[0]] + Leading(s[1..]) else ""
  }

  function Unsigned(s: string): string {
    if s != "" && (s[0] == '-' || s[0] == '+') then s[1..] else s
  }

  /** What atoi's text denotes, before asking whether an int can hold it. */
  function Denotes(s: string): int {
    var t := SkipSpace(s);
    var v := Value(Leading(Unsigned(t)));
    if t != "" && t[0] == '-' then 0 - v else v
  }

  predicate InRange(v: int) {
    -0x8000_0000 <= v < 0x8000_0000
  }

  /** atoi; C leaves the result open when the number does not fit, so `wild` may be any function. */
  function Atoi(s: string, wild: string -> int32): int32 {
    if InRange(Denotes(s)) then Denotes(s) else wild(s)
  }

  function Digits(n: nat): (s: string)
    ensures s != "" && AllDigits(s) && Value(s) == n
  {
    var last := '0' + (n % 10) as char;
    assert DigitValue(last) == n % 10;
    if n < 10 then
      assert [last][..0] == "";
      [last]
    else
      var front := Digits(n / 10);
      assert (front + [last])[..|front|] == front;
      front + [last]
  }

  /** %d. */
  function Itoa(n: int): (s: string)
    ensures Word(s) && '\0' !in s
  {
    if n < 0 then
      assert forall c :: c in Digits(-n) ==> IsDigit(c);
      "-" + Digits(-n)
    else
      assert forall c :: c in Digits(n) ==> IsDigit(c);
      Digits(n)
  }

  lemma {:induction false} LeadingOfDigits(s: string)
    requires AllDigits(s)
    ensures Leading(s) == s
  {
    if s != "" {
      assert s[0] in s;
      LeadingOfDigits(s[1..]);
    }
  }

  /** Reading back a printed number. */
  lemma AtoiUndoesItoa(n: int, wild: string -> int32)
    requires InRange(n)
    ensures Atoi(Itoa(n), wild) == n
  {
    var d := Digits(if n < 0 then -n else n);
    LeadingOfDigits(d);
    assert d[0] in d && IsDigit(d[0]);
    if n < 0 {
      assert ("-" + d)[1..] == d;
    }
  }

  // --- What these functions compute, in terms of the digits ------------------------------------

  function Pow10(k: nat): nat {
    if k == 0 then 1 else 10 * Pow10(k - 1)
  }

  /** A digit string is read in base ten: one digit is its distance from '0' ... */
  lemma ValueOfDigit(c: char)
    requires '0' <= c <= '9'
    ensures Value([c]) == c as int - 48
  {
    assert [c][..0] == "";
  }

  lemma ValueSplits(s: string)
    requires AllDigits(s) && s != ""
    ensures var n := |s| - 1; AllDigits(s[..n]) && IsDigit(s[n]) && Value(s) == Value(s[..n]) * 10 + DigitValue(s[n])
  {
    assert s[|s| - 1] in s;
  }

  lemma ShiftDigit(x: nat, p: nat, y: nat, d: nat)
    ensures (x * p + y) * 10 + d == x * (10 * p) + (y * 10 + d)
  {
  }

  /** ... and digits to the left weigh a power of ten more. */
  lemma {:induction false} ValueJoins(a: string, b: string)
    requires AllDigits(a) && AllDigits(b)
    ensures Value(a + b) == Value(a) * Pow10(|b|) + Value(b)
  {
    if b == "" {
      assert a + b == a;
    } else {
      var n := |b| - 1;
      ValueJoins(a, b[..n]);
      assert b[n] in b && (a + b)[..|a| + n] == a + b[..n] && (a + b)[|a| + n] == b[n];
      ValueSplits(a + b);
      ValueSplits(b);
      hide Value, AllDigits;
      ShiftDigit(Value(a), Pow10(n), Value(b[..n]), DigitValue(b[n]));
    }
  }

  /** %d in base ten. */
  lemma PrintedNumbers()
    ensures Itoa(0) == "0" && Itoa(7) == "7" && Itoa(1001) == "1001" && Itoa(-1) == "-1" && Itoa(-20) == "-20"
  {
    assert Digits(0) == "0" && Digits(7) == "7" && Digits(1) == "1" && Digits(2) == "2";
    assert Digits(10) == Digits(1) + "0" && Digits(20) == Digits(2) + "0";
    assert Digits(100) == Digits(10) + "0" && Digits(1001) == Digits(100) + "1";
  }

  lemma {:induction false} LeadingStops(s: string, rest: string)
    requires AllDigits(s) && (rest != "" ==> !IsDigit(rest[0]))
    ensures Leading(s + rest) == s
  {
    if s == "" {
      assert s + rest == rest;
    } else {
      assert (s + rest)[0] == s[0] && s[0] in s && (s + rest)[1..] == s[1..] + rest;
      LeadingStops(s[1..], rest);
      assert [s[0]] + s[1..] == s;
    }
  }

  lemma {:induction false} SpaceIsSkipped(w: string, t: string)
    requires forall c :: c in w ==> c == ' ' || 9 <= c as int <= 13
    requires t != "" ==> t[0] != ' ' && !(9 <= t[0] as int <= 13)
    ensures SkipSpace(w + t) == t
  {
    if w == "" {
      assert w + t == t;
    } else {
      assert w[0] in w && (w + t)[0] == w[0] && (w + t)[1..] == w[1..] + t;
      assert forall c :: c in w[1..] ==> c in w;
      SpaceIsSkipped(w[1..], t);
    }
  }

  /**
    atoi, on every text (C11, section 7.22.1.2): white space, then at most one sign, then digits,
    possibly none, then anything that is not a digit.
  */
  lemma AtoiReads(w: string, sign: string, d: string, rest: string, wild: string -> int32)
    requires forall c :: c in w ==> c == ' ' || 9 <= c as int <= 13
    requires sign == "" || sign == "-" || sign == "+"
    requires AllDigits(d) && (rest != "" ==> !('0' <= rest[0] <= '9'))
    requires sign == "" && d == "" && rest != "" ==>
      rest[0] != '-' && rest[0] != '+' && rest[0] != ' ' && !(9 <= rest[0] as int <= 13)
    ensures var s, v := w + (sign + (d + rest)), if sign == "-" then 0 - Value(d) else Value(d);
      Atoi(s, wild) == if -0x8000_0000 <= v < 0x8000_0000 then v else wild(s)
    ensures d == "" ==> Atoi(w + (sign + (d + rest)), wild) == 0
  {
    var u := d + rest;
    var t := sign + u;
    LeadingStops(d, rest);
    if sign != "" {
      assert t[0] == sign[0] && t[1..] == u;
      assert sign[0] == '-' || sign[0] == '+';
    } else {
      assert t == u;
      if d != "" {
        assert d[0] in d && u[0] == d[0] && '0' <= u[0];
      } else {
        assert u == rest;
      }
    }
    assert t != "" ==> t[0] != ' ' && !(9 <= t[0] as int <= 13);
    SpaceIsSkipped(w, t);
    assert Unsigned(t) == u;
    hide SkipSpace, Leading, Value, Unsigned;
    assert Denotes(w + t) == if sign == "-" then 0 - Value(d) else Value(d);
    assert d == "" ==> Value(d) == 0 by {
      NoDigitsNoValue();
    }
  }

  lemma NoDigitsNoValue()
    ensures Value("") == 0
  {
  }

  lemma {:induction false} SkippedIsSuffix(s: string)
    ensures forall c :: c in SkipSpace(s) ==> c in s
  {
    if s != "" && IsSpace(s[0]) {
      SkippedIsSuffix(s[1..]);
    }
  }

  /** Text without a digit is read as zero. */
  lemma AtoiWithoutDigits(s: string, wild: string -> int32)
    requires forall c :: c in s ==> !('0' <= c <= '9')
    ensures Atoi(s, wild) == 0
  {
    SkippedIsSuffix(s);
    var u := Unsigned(SkipSpace(s));
    assert u != "" ==> u[0] in SkipSpace(s);
    hide SkipSpace, Unsigned;
    assert Leading(u) == "";
  }
}
