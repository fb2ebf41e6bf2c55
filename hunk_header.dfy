/**
 * Unified-diff hunk headers, `@@ -l[,s] +l[,s] @@ text`, in the `diff -u`
 * output format of the POSIX.1-2008 `diff` utility.
 *
 * `MatchHeader` is the regular expression
 * `^@@ -(\d+)(?:,(\d+))? \+(\d+)(?:,(\d+))? @@[ ]?(.*)` applied with
 * `re.match`; `ExtractHunkHeaders` turns its groups into numbers, a missing
 * count becoming 0.
 */
module HunkHeaders {
  import opened Wrappers
  import opened Text

  /** The five groups of a successful match. */
  datatype HeaderMatch = HeaderMatch(start1: nat, count1: Option<nat>, start2: nat, count2: Option<nat>, section: string)

  /** A parsed header: start and size of the old and the new range, and the section text. */
  datatype Hunk = Hunk(start1: int, size1: int, start2: int, size2: int, section: string)

  /** The leading run of ASCII digits of `s`, and what follows it. */
  function DigitPrefix(s: string): (r: (string, string))
    ensures r.0 + r.1 == s
    decreases |s|
  {
    if s != [] && IsDigit(s[0]) then
      var (d, rest) := DigitPrefix(s[1..]);
      ([s[0]] + d, rest)
    else ([], s)
  }

  /** `\d+` at the start of `s`: the number and the text after it. */
  function Number(s: string): (r: Option<(nat, string)>)
    ensures r.Some? ==> |r.value.1| < |s|
  {
    var (d, rest) := DigitPrefix(s);
    if d == [] then None else Some((DigitsValue(d), rest))
  }

  /** `(?:,(\d+))?` at the start of `s`: the optional count and the text after it. */
  function OptCount(s: string): (r: (Option<nat>, string))
  {
    if s != [] && s[0] == ',' then
      match Number(s[1..])
      case Some((v, rest)) => (Some(v), rest)
      case None => (None, s)
    else (None, s)
  }

  /** `.*`: everything up to the first "\n". */
  function RestOfLine(s: string): string
  {
    if s != [] && s[0] != '\n' then [s[0]] + RestOfLine(s[1..]) else []
  }

  /** `s` minus the literal prefix `lit`, when `s` starts with it. */
  function AfterLiteral(s: string, lit: string): Option<string>
  {
    if StartsWith(s, lit) then Some(s[|lit|..]) else None
  }

  /** The hunk-header regular expression, matched at the start of `line`. */
  function MatchHeader(line: string): (r: Option<HeaderMatch>)
    ensures r.Some? ==> StartsWith(line, "@@ -")
  {
    match AfterLiteral(line, "@@ -")
    case None => None
    case Some(t0) =>
      match Number(t0)
      case None => None
      case Some((s1, t1)) =>
        var (c1, t2) := OptCount(t1);
        MatchNewRange(t2, s1, c1)
  }

  /** The rest of the expression, ` \+(\d+)(?:,(\d+))? @@[ ]?(.*)`, after the old range. */
  function MatchNewRange(t: string, s1: nat, c1: Option<nat>): Option<HeaderMatch>
  {
    match AfterLiteral(t, " +")
    case None => None
    case Some(t3) =>
      match Number(t3)
      case None => None
      case Some((s2, t4)) =>
        var (c2, t5) := OptCount(t4);
        match AfterLiteral(t5, " @@")
        case None => None
        case Some(t6) =>
          var t7 := if t6 != [] && t6[0] == ' ' then t6[1..] else t6;
          Some(HeaderMatch(s1, c1, s2, c2, RestOfLine(t7)))
  }

  predicate IsHeader(line: string) { MatchHeader(line).Some? }

  /** A matching header starts with "@@", so every "@@"-free line is not one. */
  lemma HeaderStartsWithAt(line: string)
    requires IsHeader(line)
    ensures StartsWith(line, "@@") && |line| > 0 && line[0] == '@'
  {
    assert line[..4] == "@@ -";
    assert line[..2] == line[..4][..2];
  }

  /** The groups as numbers, a missing count being 0. */
  function ExtractHunkHeaders(m: HeaderMatch): (h: Hunk)
    ensures h.start1 == m.start1 && h.start2 == m.start2 && h.section == m.section
    ensures h.size1 == (if m.count1.Some? then m.count1.value else 0)
    ensures h.size2 == (if m.count2.Some? then m.count2.value else 0)
    ensures h.start1 >= 0 && h.size1 >= 0 && h.start2 >= 0 && h.size2 >= 0
  {
    Hunk(m.start1, m.count1.GetOr(0), m.start2, m.count2.GetOr(0), m.section)
  }

  /** The header text `@@ -s1,n1 +s2,n2 @@ section` that the context widener writes. */
  function RenderHeader(s1: int, n1: int, s2: int, n2: int, section: string): string
  {
    "@@ -" + (IntToString(s1) + ("," + (IntToString(n1) + (" +" + (IntToString(s2) + ("," + (IntToString(n2) + (" @@" + (" " + section)))))))))
  }

  // ----- round trip -----

  lemma {:induction false} DigitPrefixOf(d: string, rest: string)
    requires AllDigits(d) && (rest == [] || !IsDigit(rest[0]))
    ensures DigitPrefix(d + rest) == (d, rest)
    decreases |d|
  {
    if d != [] {
      var s := d + rest;
      assert s[0] == d[0] && IsDigit(d[0]);
      assert s[1..] == d[1..] + rest;
      DigitPrefixOf(d[1..], rest);
      assert DigitPrefix(s) == ([s[0]] + DigitPrefix(s[1..]).0, DigitPrefix(s[1..]).1);
      assert [d[0]] + d[1..] == d;
    } else {
      assert d + rest == rest;
    }
  }

  lemma NumberOf(n: nat, rest: string)
    requires rest == [] || !IsDigit(rest[0])
    ensures Number(NatToString(n) + rest) == Some((n, rest))
  {
    DigitPrefixOf(NatToString(n), rest);
    DigitsValueOfNatToString(n);
  }

  lemma CountOf(n: nat, rest: string)
    requires rest == [] || !IsDigit(rest[0])
    ensures OptCount("," + (NatToString(n) + rest)) == (Some(n), rest)
  {
    var s := "," + (NatToString(n) + rest);
    assert s[1..] == NatToString(n) + rest;
    NumberOf(n, rest);
  }

  lemma AfterLiteralOf(lit: string, rest: string)
    ensures AfterLiteral(lit + rest, lit) == Some(rest)
  {
    assert (lit + rest)[..|lit|] == lit;
    assert (lit + rest)[|lit|..] == rest;
  }

  lemma {:induction false} RestOfLineAll(s: string)
    requires forall j :: 0 <= j < |s| ==> s[j] != '\n'
    ensures RestOfLine(s) == s
    decreases |s|
  {
    if s != [] {
      RestOfLineAll(s[1..]);
    }
  }

  lemma MatchNewRangeSteps(t: string, s1: nat, c1: Option<nat>, t3: string, s2: nat, t4: string, c2: Option<nat>, t5: string, t6: string)
    requires AfterLiteral(t, " +") == Some(t3)
    requires Number(t3) == Some((s2, t4)) && OptCount(t4) == (c2, t5)
    requires AfterLiteral(t5, " @@") == Some(t6)
    ensures MatchNewRange(t, s1, c1)
         == Some(HeaderMatch(s1, c1, s2, c2, RestOfLine(if t6 != [] && t6[0] == ' ' then t6[1..] else t6)))
  {
  }

  lemma NewRangeTail(s1: nat, c1: Option<nat>, s2: nat, n2: nat, section: string)
    requires forall j :: 0 <= j < |section| ==> section[j] != '\n'
    ensures MatchNewRange(" +" + (NatToString(s2) + ("," + (NatToString(n2) + (" @@" + (" " + section))))), s1, c1)
         == Some(HeaderMatch(s1, c1, s2, Some(n2), section))
  {
    var t6 := " " + section;
    var t5 := " @@" + t6;
    var t4 := "," + (NatToString(n2) + t5);
    var t3 := NatToString(s2) + t4;
    AfterLiteralOf(" +", t3);
    NumberOf(s2, t4);
    CountOf(n2, t5);
    AfterLiteralOf(" @@", t6);
    assert t6[1..] == section;
    RestOfLineAll(section);
    MatchNewRangeSteps(" +" + t3, s1, c1, t3, s2, t4, Some(n2), t5, t6);
  }

  lemma MatchHeaderSteps(line: string, t0: string, s1: nat, t1: string, c1: Option<nat>, t2: string, r: Option<HeaderMatch>)
    requires AfterLiteral(line, "@@ -") == Some(t0)
    requires Number(t0) == Some((s1, t1)) && OptCount(t1) == (c1, t2)
    requires MatchNewRange(t2, s1, c1) == r
    ensures MatchHeader(line) == r
  {
  }

  /** Parsing a rendered header gives back its numbers and its section text. */
  lemma RenderThenMatch(s1: nat, n1: nat, s2: nat, n2: nat, section: string)
    requires forall j :: 0 <= j < |section| ==> section[j] != '\n'
    ensures MatchHeader(RenderHeader(s1, n1, s2, n2, section))
         == Some(HeaderMatch(s1, Some(n1), s2, Some(n2), section))
  {
    var t2 := " +" + (NatToString(s2) + ("," + (NatToString(n2) + (" @@" + (" " + section)))));
    var t1 := "," + (NatToString(n1) + t2);
    var line := RenderHeader(s1, n1, s2, n2, section);
    AfterLiteralOf("@@ -", NatToString(s1) + t1);
    NumberOf(s1, t1);
    CountOf(n1, t2);
    NewRangeTail(s1, Some(n1), s2, n2, section);
    MatchHeaderSteps(line, NatToString(s1) + t1, s1, t1, Some(n1), t2, Some(HeaderMatch(s1, Some(n1), s2, Some(n2), section)));
  }

  lemma NewRangeNoCountTail(s1: nat, c1: Option<nat>, s2: nat, section: string)
    requires forall j :: 0 <= j < |section| ==> section[j] != '\n'
    ensures MatchNewRange(" +" + (NatToString(s2) + (" @@" + (" " + section))), s1, c1)
         == Some(HeaderMatch(s1, c1, s2, None, section))
  {
    var t6 := " " + section;
    var t5 := " @@" + t6;
    var t3 := NatToString(s2) + t5;
    AfterLiteralOf(" +", t3);
    NumberOf(s2, t5);
    assert OptCount(t5) == (None, t5);
    AfterLiteralOf(" @@", t6);
    assert t6[1..] == section;
    RestOfLineAll(section);
    MatchNewRangeSteps(" +" + t3, s1, c1, t3, s2, t5, None, t5, t6);
  }

  /**
   * A header whose new range omits its count, `@@ -s1,n1 +s2 @@ section`,
   * reports size 0 for the new side and every other group as written.
   */
  lemma OmittedNewCountIsZero(s1: nat, n1: nat, s2: nat, section: string)
    requires forall j :: 0 <= j < |section| ==> section[j] != '\n'
    ensures var line := "@@ -" + (NatToString(s1) + ("," + (NatToString(n1) + (" +" + (NatToString(s2) + (" @@" + (" " + section)))))));
            && MatchHeader(line).Some?
            && ExtractHunkHeaders(MatchHeader(line).value) == Hunk(s1, n1, s2, 0, section)
  {
    var t2 := " +" + (NatToString(s2) + (" @@" + (" " + section)));
    var t1 := "," + (NatToString(n1) + t2);
    var line := "@@ -" + (NatToString(s1) + t1);
    AfterLiteralOf("@@ -", NatToString(s1) + t1);
    NumberOf(s1, t1);
    CountOf(n1, t2);
    NewRangeNoCountTail(s1, Some(n1), s2, section);
    MatchHeaderSteps(line, NatToString(s1) + t1, s1, t1, Some(n1), t2, Some(HeaderMatch(s1, Some(n1), s2, None, section)));
  }
}
