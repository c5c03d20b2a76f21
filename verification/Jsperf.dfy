/**
  `JsRuntime::JsperfProfilerCommandParse`: the sampling interval named in a profiler command.

  The two regular expressions of the parser are kept as expressions and given the meaning of a full
  match; `$` in their last positions is the empty match there.  The captured interval is what greedy
  matching captures.
*/
module Jsperf {
  import opened Text
  import opened Wrappers

  // ---------------------------------------------------------------------------------------------
  // Regular expressions whose repetitions are over character classes

  datatype Class = Space | Digit | Dot

  predicate In(c: char, cls: Class) {
    match cls
    case Space => c == ' ' || '\t' <= c <= '\r'
    case Digit => '0' <= c <= '9'
    case Dot => c != '\n' && c != '\r'
  }

  datatype Regex =
    | Empty
    | Literal(text: string)
    | Many(cls: Class)
    | Some1(cls: Class)
    | Cat(a: Regex, b: Regex)
    | Alt(a: Regex, b: Regex)

  predicate AllIn(s: string, cls: Class) {
    forall i :: 0 <= i < |s| ==> In(s[i], cls)
  }

  /** `r` matches the whole of `s`. */
  predicate Matches(r: Regex, s: string)
    decreases r
  {
    match r
    case Empty => s == ""
    case Literal(text) => s == text
    case Many(cls) => AllIn(s, cls)
    case Some1(cls) => s != "" && AllIn(s, cls)
    case Cat(a, b) => exists k :: 0 <= k <= |s| && Matches(a, s[..k]) && Matches(b, s[k..])
    case Alt(a, b) => Matches(a, s) || Matches(b, s)
  }

  /** `$|nativeperf.*` */
  const TAIL: Regex := Alt(Empty, Cat(Literal("nativeperf"), Many(Dot)))
  /** `\s*($|nativeperf.*)` */
  const SPACED_TAIL: Regex := Cat(Many(Space), TAIL)
  /** `$|\d*\s*($|nativeperf.*)` */
  const ARGUMENTS: Regex := Alt(Empty, Cat(Many(Digit), SPACED_TAIL))
  /** `$|\s+($|\d*\s*($|nativeperf.*))`, the first group of the command expression. */
  const GROUP: Regex := Alt(Empty, Cat(Some1(Space), ARGUMENTS))
  /** `\s*(\d+).*` */
  const NUMBER: Regex := Cat(Many(Space), Cat(Some1(Digit), Many(Dot)))

  // ---------------------------------------------------------------------------------------------
  // The parser

  /** The length of the longest prefix of `s` in the class. */
  function Span(s: string, cls: Class): (n: nat)
    ensures n <= |s| && (forall i :: 0 <= i < n ==> In(s[i], cls)) && (n < |s| ==> !In(s[n], cls))
  {
    if s == "" || !In(s[0], cls) then 0 else 1 + Span(s[1..], cls)
  }

  /** The digits that greedy matching of `\s*(\d+).*` captures, if it matches. */
  function Captured(s: string): (captured: Option<string>)
    ensures captured.Some? ==> captured.value != "" && AllIn(captured.value, Digit)
  {
    var i := Span(s, Space);
    var n := Span(s[i..], Digit);
    assert forall x :: 0 <= x < n ==> s[i..i + n][x] == s[i..][x];
    if n > 0 && AllIn(s[i + n..], Dot) then Some(s[i..i + n]) else None
  }

  datatype Outcome = Value(n: int) | OutOfRange

  const INT_MAX: int := 0x7fff_ffff

  function Decimal(digits: string): nat
    requires AllIn(digits, Digit)
  {
    if digits == "" then 0
    else 10 * Decimal(digits[..|digits| - 1]) + (digits[|digits| - 1] as int - '0' as int)
  }

  /** `std::stoi` on a string of digits; it throws when the number does not fit. */
  function Stoi(digits: string): Outcome
    requires AllIn(digits, Digit)
  {
    if Decimal(digits) > INT_MAX then OutOfRange else Value(Decimal(digits))
  }

  function Parse(command: string, defaultValue: int): Outcome {
    var at := FindText(command, "jsperf", 0);
    if at == -1 then Value(0)
    else ParseGroup(command[at + 6..], defaultValue)
  }

  /** The parser on what follows "jsperf". */
  function ParseGroup(group: string, defaultValue: int): Outcome {
    if !Matches(GROUP, group) then Value(defaultValue)
    else
      var interval := Captured(group);
      if interval.None? then Value(defaultValue) else Stoi(interval.value)
  }

  // ---------------------------------------------------------------------------------------------
  // Concatenations of regular expressions and of words

  lemma CatIntro(a: Regex, b: Regex, x: string, y: string)
    requires Matches(a, x) && Matches(b, y)
    ensures Matches(Cat(a, b), x + y)
  {
    var s := x + y;
    assert s[..|x|] == x && s[|x|..] == y;
  }

  lemma CatElim(a: Regex, b: Regex, s: string) returns (x: string, y: string)
    requires Matches(Cat(a, b), s)
    ensures s == x + y && Matches(a, x) && Matches(b, y)
  {
    var k :| 0 <= k <= |s| && Matches(a, s[..k]) && Matches(b, s[k..]);
    x, y := s[..k], s[k..];
  }

  /** A word in the class is the whole span of what follows, up to a first character outside it. */
  lemma SpanOf(x: string, y: string, cls: Class)
    requires AllIn(x, cls) && (y == "" || !In(y[0], cls))
    ensures Span(x + y, cls) == |x|
    ensures (x + y)[|x|..] == y
  {
    var s := x + y;
    assert forall i :: 0 <= i < |x| ==> s[i] == x[i];
    assert y != "" ==> s[|x|] == y[0];
  }

  // ---------------------------------------------------------------------------------------------
  // The capture is the one of the regular expression

  /** `\s*`, `\d+` and `.*` match `w`, `d` and `r`. */
  predicate NumberWords(s: string, w: string, d: string, r: string) {
    s == w + d + r && AllIn(w, Space) && d != "" && AllIn(d, Digit) && AllIn(r, Dot)
  }

  lemma NumberMatches(s: string, w: string, d: string, r: string)
    requires NumberWords(s, w, d, r)
    ensures Matches(NUMBER, s)
  {
    CatIntro(Some1(Digit), Many(Dot), d, r);
    CatIntro(Many(Space), Cat(Some1(Digit), Many(Dot)), w, d + r);
    assert w + (d + r) == s;
  }

  lemma NumberMatchWords(s: string) returns (w: string, d: string, r: string)
    requires Matches(NUMBER, s)
    ensures NumberWords(s, w, d, r)
  {
    var rest;
    w, rest := CatElim(Many(Space), Cat(Some1(Digit), Many(Dot)), s);
    d, r := CatElim(Some1(Digit), Many(Dot), rest);
    assert w + (d + r) == w + d + r;
  }

  /** Where the spaces and digits end is fixed by the text when the rest does not go on with a digit. */
  lemma CapturedOf(s: string, w: string, d: string, r: string)
    requires s == w + d + r && AllIn(w, Space) && d != "" && AllIn(d, Digit)
    requires r == "" || !In(r[0], Digit)
    ensures Captured(s) == if AllIn(r, Dot) then Some(d) else None
  {
    assert s == w + (d + r) && (d + r)[0] == d[0];
    SpanOf(w, d + r, Space);
    SpanOf(d, r, Digit);
    assert s[|w|..] == d + r;
    assert s[|w|..|w| + |d|] == d;
    assert s[|w| + |d|..] == r;
  }

  /** Without a digit after the spaces nothing is captured. */
  lemma NothingCaptured(s: string, w: string, r: string)
    requires s == w + r && AllIn(w, Space)
    requires r == "" || (!In(r[0], Digit) && !In(r[0], Space))
    ensures Captured(s) == None
  {
    SpanOf(w, r, Space);
  }

  /** The digits move from the tail of any match into the capture. */
  lemma Extend(s: string, w: string, d: string, r: string) returns (more: string, rest: string)
    requires NumberWords(s, w, d, r)
    ensures r == more + rest && NumberWords(s, w, d + more, rest)
    ensures rest == "" || !In(rest[0], Digit)
  {
    var n := Span(r, Digit);
    more, rest := r[..n], r[n..];
    assert r == more + rest;
    assert w + d + (more + rest) == w + (d + more) + rest;
  }

  /** The expression matches exactly when something is captured, and no match allows a longer capture. */
  lemma CapturedIffMatches(s: string)
    ensures Captured(s).Some? <==> Matches(NUMBER, s)
  {
    if Matches(NUMBER, s) {
      var w, d, r := NumberMatchWords(s);
      var more, rest := Extend(s, w, d, r);
      CapturedOf(s, w, d + more, rest);
    }
    if Captured(s).Some? {
      var i := Span(s, Space);
      var n := Span(s[i..], Digit);
      var w, d, r := s[..i], s[i..i + n], s[i + n..];
      assert forall x :: 0 <= x < n ==> d[x] == s[i..][x];
      assert NumberWords(s, w, d, r);
      NumberMatches(s, w, d, r);
    }
  }

  lemma CapturedIsLongest(s: string, w: string, d: string, r: string)
    requires NumberWords(s, w, d, r)
    ensures Captured(s).Some? && |d| <= |Captured(s).value| && Captured(s).value[..|d|] == d
  {
    var more, rest := Extend(s, w, d, r);
    CapturedOf(s, w, d + more, rest);
  }

  // ---------------------------------------------------------------------------------------------
  // The commands of the grammar

  predicate TailOk(t: string) {
    t == "" || (|t| >= 10 && t[..10] == "nativeperf" && AllIn(t[10..], Dot))
  }

  /** What may follow "jsperf": spaces, digits, spaces and an optional `nativeperf` tail. */
  predicate ArgumentWords(s: string, w: string, d: string, v: string, t: string) {
    s == w + d + v + t && w != "" && AllIn(w, Space) && AllIn(d, Digit) && AllIn(v, Space) && TailOk(t)
  }

  lemma AltIs(a: Regex, b: Regex, s: string)
    ensures Matches(Alt(a, b), s) <==> Matches(a, s) || Matches(b, s)
  {
  }

  lemma WordIs(cls: Class, s: string)
    ensures Matches(Many(cls), s) <==> AllIn(s, cls)
    ensures Matches(Some1(cls), s) <==> s != "" && AllIn(s, cls)
    ensures Matches(Empty, s) <==> s == ""
  {
  }

  lemma TailMatches(t: string)
    ensures Matches(TAIL, t) <==> TailOk(t)
  {
    if Matches(TAIL, t) && t != "" {
      var x, y := CatElim(Literal("nativeperf"), Many(Dot), t);
      assert t[..10] == x && t[10..] == y;
    }
    if TailOk(t) && t != "" {
      CatIntro(Literal("nativeperf"), Many(Dot), "nativeperf", t[10..]);
      assert t == "nativeperf" + t[10..];
    }
  }

  lemma WordsMatch(s: string, w: string, d: string, v: string, t: string)
    requires ArgumentWords(s, w, d, v, t)
    ensures Matches(GROUP, s)
  {
    hide TailOk, Matches, AllIn;
    TailMatches(t);
    WordIs(Space, v);
    WordIs(Digit, d);
    WordIs(Space, w);
    CatIntro(Many(Space), TAIL, v, t);
    CatIntro(Many(Digit), SPACED_TAIL, d, v + t);
    AltIs(Empty, Cat(Many(Digit), SPACED_TAIL), d + (v + t));
    CatIntro(Some1(Space), ARGUMENTS, w, d + (v + t));
    AltIs(Empty, Cat(Some1(Space), ARGUMENTS), w + (d + (v + t)));
    assert w + (d + (v + t)) == s;
  }

  lemma MatchWords(s: string) returns (w: string, d: string, v: string, t: string)
    requires Matches(GROUP, s) && s != ""
    ensures ArgumentWords(s, w, d, v, t)
  {
    hide TailOk, Matches, AllIn;
    AltIs(Empty, Cat(Some1(Space), ARGUMENTS), s);
    WordIs(Space, s);
    var rest;
    w, rest := CatElim(Some1(Space), ARGUMENTS, s);
    WordIs(Space, w);
    d, v, t := MatchArguments(rest);
    assert w + (d + v + t) == w + d + v + t;
  }

  lemma MatchArguments(s: string) returns (d: string, v: string, t: string)
    requires Matches(ARGUMENTS, s)
    ensures s == d + v + t && AllIn(d, Digit) && AllIn(v, Space) && TailOk(t)
  {
    hide Matches;
    AltIs(Empty, Cat(Many(Digit), SPACED_TAIL), s);
    WordIs(Space, s);
    if s == "" {
      d, v, t := "", "", "";
    } else {
      d, v, t := MatchDigits(s);
    }
  }

  lemma MatchDigits(s: string) returns (d: string, v: string, t: string)
    requires Matches(Cat(Many(Digit), SPACED_TAIL), s)
    ensures s == d + v + t && AllIn(d, Digit) && AllIn(v, Space) && TailOk(t)
  {
    hide TailOk, Matches, AllIn;
    var last;
    d, last := CatElim(Many(Digit), SPACED_TAIL, s);
    v, t := CatElim(Many(Space), TAIL, last);
    WordIs(Digit, d);
    WordIs(Space, v);
    TailMatches(t);
    assert d + (v + t) == d + v + t;
  }

  /** The command holds "jsperf" for the first time at `at`. */
  predicate FirstJsperf(command: string, at: nat) {
    OccursAt(command, "jsperf", at) && forall k: nat :: k < at ==> !OccursAt(command, "jsperf", k)
  }

  lemma ParseFrom(command: string, at: nat, defaultValue: int)
    requires FirstJsperf(command, at)
    ensures Parse(command, defaultValue) == ParseGroup(command[at + 6..], defaultValue)
  {
    hide ParseGroup;
    assert FindText(command, "jsperf", 0) == at;
  }

  /**
    A command of the grammar with an interval yields that interval, unless the spaces after the
    number hold a line break: `.` of the second expression does not match one, and the default is
    returned although the first expression accepted the command.
  */
  lemma IntervalIsParsed(command: string, at: nat, w: string, d: string, v: string, t: string, defaultValue: int)
    requires FirstJsperf(command, at)
    requires ArgumentWords(command[at + 6..], w, d, v, t) && d != ""
    ensures Parse(command, defaultValue) == if AllIn(v, Dot) then Stoi(d) else Value(defaultValue)
  {
    hide TailOk, Matches, AllIn, Parse, Captured, Stoi;
    ParseFrom(command, at, defaultValue);
    var s := command[at + 6..];
    WordsMatch(s, w, d, v, t);
    assert s == w + d + (v + t);
    TailAfterSpaces(v, t);
    CapturedOf(s, w, d, v + t);
  }

  lemma TailAfterSpaces(v: string, t: string)
    requires AllIn(v, Space) && TailOk(t)
    ensures AllIn(v + t, Dot) <==> AllIn(v, Dot)
    ensures v + t == "" || !In((v + t)[0], Digit)
  {
    var s := v + t;
    assert t != "" ==> t[0] == t[..10][0];
    forall i | 0 <= i < |t| ensures In(t[i], Dot) {
      if i < 10 {
        assert t[i] == t[..10][i];
      } else {
        assert t[i] == t[10..][i - 10];
      }
    }
    assert forall i :: 0 <= i < |v| ==> v[i] == s[i];
  }

  /** Digits stand at the beginning of the arguments. */
  ghost predicate HasInterval(group: string) {
    exists w: string, d: string, v: string, t: string {:trigger ArgumentWords(group, w, d, v, t)} ::
      ArgumentWords(group, w, d, v, t) && d != ""
  }

  /** Every other text after "jsperf", in the grammar or outside it, yields the default. */
  lemma OtherwiseDefault(command: string, at: nat, defaultValue: int)
    requires FirstJsperf(command, at) && !HasInterval(command[at + 6..])
    ensures Parse(command, defaultValue) == Value(defaultValue)
  {
    hide Matches, Parse;
    ParseFrom(command, at, defaultValue);
    var s := command[at + 6..];
    if Matches(GROUP, s) {
      NoIntervalCaptured(s);
    }
  }

  lemma NoIntervalCaptured(s: string)
    requires Matches(GROUP, s) && !HasInterval(s)
    ensures Captured(s) == None
  {
    hide Matches, TailOk, AllIn;
    if s != "" {
      hide Captured;
      var w, d, v, t := MatchWords(s);
      assert d == "";
      assert s == (w + v) + t;
      BothSpaces(w, v, t);
      NothingCaptured(s, w + v, t);
    }
  }

  lemma BothSpaces(w: string, v: string, t: string)
    requires AllIn(w, Space) && AllIn(v, Space) && TailOk(t)
    ensures AllIn(w + v, Space)
    ensures t == "" || (!In(t[0], Digit) && !In(t[0], Space))
  {
    assert t != "" ==> t[0] == t[..10][0];
  }

  lemma AbsentIsZero(command: string, defaultValue: int)
    requires forall k: nat :: !OccursAt(command, "jsperf", k)
    ensures Parse(command, defaultValue) == Value(0)
  {
  }

  // ---------------------------------------------------------------------------------------------
  // Printed numbers

  /** `n` in decimal, without leading zeros. */
  function Printed(n: nat): (s: string)
    ensures s != "" && AllIn(s, Digit)
  {
    var last := [('0' as int + n % 10) as char];
    if n < 10 then last else Printed(n / 10) + last
  }

  lemma {:induction false} PrintedReadsBack(n: nat)
    ensures Decimal(Printed(n)) == n
  {
    var s := Printed(n);
    assert s[|s| - 1] as int - '0' as int == n % 10;
    if n >= 10 {
      PrintedReadsBack(n / 10);
      assert s[..|s| - 1] == Printed(n / 10);
    } else {
      assert s[..0] == "";
    }
  }

  /** A command of the grammar with something before it. */
  function Command(before: string, w: string, d: string, v: string, t: string): string {
    before + "jsperf" + (w + d + v + t)
  }

  lemma IntervalOfCommand(before: string, w: string, d: string, v: string, t: string, defaultValue: int)
    requires w != "" && AllIn(w, Space) && d != "" && AllIn(d, Digit) && AllIn(v, Space) && TailOk(t)
    requires FirstJsperf(Command(before, w, d, v, t), |before|)
    ensures Parse(Command(before, w, d, v, t), defaultValue) == if AllIn(v, Dot) then Stoi(d) else Value(defaultValue)
  {
    hide TailOk, FirstJsperf, AllIn, Parse, Stoi;
    var command := Command(before, w, d, v, t);
    assert command[|before| + 6..] == w + d + v + t;
    IntervalIsParsed(command, |before|, w, d, v, t, defaultValue);
  }

  /**
    Every number printed in decimal after "jsperf" and spaces, with any allowed tail free of line
    breaks between the two, is what the parser returns; above `INT_MAX` the conversion throws.
  */
  lemma PrintedIsParsed(before: string, w: string, n: nat, v: string, t: string, defaultValue: int)
    requires w != "" && AllIn(w, Space) && AllIn(v, Space) && AllIn(v, Dot) && TailOk(t)
    requires FirstJsperf(Command(before, w, Printed(n), v, t), |before|)
    ensures Parse(Command(before, w, Printed(n), v, t), defaultValue) == if n <= INT_MAX then Value(n) else OutOfRange
  {
    hide TailOk, FirstJsperf, AllIn, Parse, Command;
    IntervalOfCommand(before, w, Printed(n), v, t, defaultValue);
    PrintedReadsBack(n);
  }

  /** A line break in the spaces before an allowed tail hides the number. */
  lemma LineBreakHidesNumber(before: string, w: string, n: nat, v: string, t: string, defaultValue: int)
    requires w != "" && AllIn(w, Space) && AllIn(v, Space) && !AllIn(v, Dot) && TailOk(t)
    requires FirstJsperf(Command(before, w, Printed(n), v, t), |before|)
    ensures Parse(Command(before, w, Printed(n), v, t), defaultValue) == Value(defaultValue)
  {
    hide TailOk, FirstJsperf, AllIn, Parse, Command;
    IntervalOfCommand(before, w, Printed(n), v, t, defaultValue);
  }

  /** The command "jsperf 5", ended by a line break, is of the grammar and yields the default. */
  lemma LineBreakExample(defaultValue: int)
    ensures Matches(GROUP, " 5\n")
    ensures Parse("jsperf 5\n", defaultValue) == Value(defaultValue)
  {
    var command := "jsperf 5\n";
    assert command == Command("", " ", Printed(5), "\n", "");
    assert "\n"[0] == '\n' && !AllIn("\n", Dot);
    assert OccursAt(command, "jsperf", 0);
    LineBreakHidesNumber("", " ", 5, "\n", "", defaultValue);
    WordsMatch(" 5\n", " ", "5", "\n", "");
  }
}
