/**
 * The review sections: estimated effort, relevant tests, contribution time,
 * security concerns, to-do sections, key issues and the split themes. Each
 * renders as a table row with GitHub markdown and as a heading otherwise.
 */
module ReviewFormatter {
  import opened Wrappers
  import opened Text
  import opened PyValues
  import opened MarkdownUtils

  /** The effort bars as review_formatter.py writes them: the UTF-8 bytes of the emoji read as Windows-1252. */
  const BlueBar := "\U{00F0}\U{0178}\U{201D}\U{00B5}"
  const WhiteBar := "\U{00E2}\U{0161}\U{00AA}"
  /** The effort bars as markdown_formatter.py writes them. */
  const LegacyBlueBar := "\U{1F535}"
  const LegacyWhiteBar := "\U{26AA}"
  /** The check mark of "No TODO sections", read the same way as the bars. */
  const DoneMark := "\U{00E2}\U{0153}\U{2026}"
  /** The check mark as markdown_formatter.py writes it. */
  const LegacyDoneMark := "\U{2705}"

  // ----- rows -----

  /** What a row starts with: a table cell with GitHub markdown, a third-level heading otherwise. */
  function Lead(gfm: bool, emoji: string): string
  {
    if gfm then "<tr><td>" + emoji + "&nbsp;<strong>" else "### " + emoji + " "
  }

  /** The lead and the section's title, bold in a table cell. */
  function Open(gfm: bool, emoji: string, title: string): string
  {
    Lead(gfm, emoji) + title + (if gfm then "</strong>" else "")
  }

  /** How a complete row ends. */
  function Close(gfm: bool): string
  {
    if gfm then "</td></tr>\n" else "\n\n"
  }

  /** A section: its title, its body and what closes it. */
  function Block(gfm: bool, emoji: string, title: string, body: string, close: string): string
  {
    Open(gfm, emoji, title) + body + close
  }

  /** A section starts with its lead and title. */
  lemma BlockStarts(gfm: bool, emoji: string, title: string, body: string, close: string)
    ensures StartsWith(Block(gfm, emoji, title, body, close), Lead(gfm, emoji) + title)
  {
    var s := Block(gfm, emoji, title, body, close);
    var p := Lead(gfm, emoji) + title;
    assert s[..|p|] == p by {
      forall i | 0 <= i < |p|
        ensures s[i] == p[i]
      {
        assert s[i] == Open(gfm, emoji, title)[i];
      }
    }
  }

  /** Two titles that differ in their first character tell their sections apart. */
  lemma BlockTitle(gfm: bool, emoji: string, title: string, other: string, body: string, close: string)
    requires title != [] && other != []
    ensures StartsWith(Block(gfm, emoji, title, body, close), Lead(gfm, emoji) + other) ==> title[0] == other[0]
  {
    var s := Block(gfm, emoji, title, body, close);
    var n := |Lead(gfm, emoji)|;
    assert s[n] == Open(gfm, emoji, title)[n] == title[0];
    if StartsWith(s, Lead(gfm, emoji) + other) {
      assert s[n] == (s[..n + |other|])[n] == other[0];
    }
  }

  /** A section whose body has two parts is the four pieces in order. */
  lemma BlockPieces(gfm: bool, emoji: string, title: string, pre: string, x: string, close: string)
    ensures Block(gfm, emoji, title, pre + x, close) == Open(gfm, emoji, title) + pre + x + close
  {
  }

  /** The last part of a section's body occurs in it. */
  lemma BlockContains(gfm: bool, emoji: string, title: string, pre: string, x: string, close: string)
    ensures Contains(Block(gfm, emoji, title, pre + x, close), x)
  {
    BlockPieces(gfm, emoji, title, pre, x, close);
    ContainsMiddle(Open(gfm, emoji, title) + pre, x, close);
  }

  /** A section ends with the last part of its body and what closes it. */
  lemma BlockEnds(gfm: bool, emoji: string, title: string, pre: string, x: string, close: string)
    ensures EndsWith(Block(gfm, emoji, title, pre + x, close), x + close)
  {
    var s := Block(gfm, emoji, title, pre + x, close);
    assert s == Open(gfm, emoji, title) + pre + (x + close);
  }

  // ----- estimated effort -----

  const EffortTitle := "Estimated effort to review"

  /** Python's `s * n`: `n` copies, none when `n` is not positive. */
  function Repeat(s: string, n: int): (r: string)
    ensures |r| == (if n > 0 then n * |s| else 0)
    decreases n
  {
    if n <= 0 then "" else s + Repeat(s, n - 1)
  }

  /**
   * The effort as a number: the stripped text itself when it is all digits,
   * else the integer before its first comma, else 0.
   */
  function EffortValue(value: Value, repr: Value -> string): int
  {
    var text := Strip(PyStr(value, repr));
    if text != [] && AllDigits(text) then DigitsValue(text)
    else
      match ParseInt(Split(text, ",")[0])
      case Some(n) => n
      case None => 0
  }

  /** A positive effort `v` is shown as "v", then `v` blue bars and `5 - v` white ones; otherwise the stripped text is shown. */
  function EffortShown(value: Value, blue: string, white: string, repr: Value -> string): string
  {
    var v := EffortValue(value, repr);
    if v > 0 then IntToString(v) + " " + Repeat(blue, v) + Repeat(white, 5 - v) else Strip(PyStr(value, repr))
  }

  /** `_process_estimated_effort`, with the bar characters of the module it comes from. */
  function ProcessEstimatedEffort(value: Value, emoji: string, gfm: bool, blue: string, white: string,
                                  repr: Value -> string): (r: string)
    ensures StartsWith(r, Lead(gfm, emoji) + EffortTitle)
    ensures EndsWith(r, EffortShown(value, blue, white, repr) + Close(gfm))
  {
    var shown := EffortShown(value, blue, white, repr);
    BlockStarts(gfm, emoji, EffortTitle, ": " + shown, Close(gfm));
    BlockEnds(gfm, emoji, EffortTitle, ": ", shown, Close(gfm));
    Block(gfm, emoji, EffortTitle, ": " + shown, Close(gfm))
  }

  /** A number, as an integer or as its digits, is its own effort. */
  lemma EffortOfNumber(n: nat, repr: Value -> string)
    ensures EffortValue(Int(n), repr) == n
    ensures EffortValue(Str(NatToString(n)), repr) == n
  {
    var s := NatToString(n);
    assert s[0] !in Whitespace && s[|s| - 1] !in Whitespace;
    StrippedFixed(s);
    DigitsValueOfNatToString(n);
  }

  /** A text that starts with a number and a comma has the number as its effort, whatever follows. */
  lemma EffortFirstField(n: nat, rest: string, repr: Value -> string)
    ensures EffortValue(Str(NatToString(n) + "," + rest), repr) == n
  {
    var ns := NatToString(n);
    var s := ns + "," + rest;
    assert s[0] == ns[0] && s[0] !in Whitespace;
    assert LStripChars(s, Whitespace) == s;
    var text := Strip(s);
    RStripCharsSpec(s, Whitespace);
    assert s[|ns|] == ',';
    assert s[|ns|] !in Whitespace;
    assert |text| > |ns|;
    assert text[..|ns| + 1] == s[..|ns| + 1];
    assert !AllDigits(text) by {
      assert text[|ns|] == ',';
    }
    forall j | 0 <= j < |ns|
      ensures !OccursAt(text, ",", j)
    {
      assert text[j] == ns[j];
      assert text[j..j + 1] == [text[j]];
    }
    assert text[|ns|..|ns| + 1] == ",";
    FindFromAt(text, ",", 0, |ns|);
    assert Split(text, ",")[0] == text[..|ns|] == ns;
    ParseIntOfNat(n);
  }

  /**
   * A positive effort of at most five shows exactly five bars, the first
   * `v` blue; a larger effort shows `v` blue bars and no white ones.
   */
  lemma EffortBars(value: Value, blue: string, white: string, repr: Value -> string)
    requires EffortValue(value, repr) > 0
    ensures var v := EffortValue(value, repr);
            EffortShown(value, blue, white, repr)
              == IntToString(v) + " " + Repeat(blue, v) + Repeat(white, Max(0, 5 - v))
    ensures var v := EffortValue(value, repr);
            v <= 5 && |blue| == |white| ==> |Repeat(blue, v) + Repeat(white, 5 - v)| == 5 * |blue|
  {
    var v := EffortValue(value, repr);
    EffortShownPositive(value, blue, white, repr, v);
    BarCounts(v, blue, white);
  }

  lemma EffortShownPositive(value: Value, blue: string, white: string, repr: Value -> string, v: int)
    requires v == EffortValue(value, repr) && v > 0
    ensures EffortShown(value, blue, white, repr) == IntToString(v) + " " + Repeat(blue, v) + Repeat(white, 5 - v)
  {
  }

  lemma BarCounts(v: int, blue: string, white: string)
    requires v > 0
    ensures Repeat(white, 5 - v) == Repeat(white, Max(0, 5 - v))
    ensures v <= 5 && |blue| == |white| ==> |Repeat(blue, v) + Repeat(white, 5 - v)| == 5 * |blue|
  {
    if v <= 5 && |blue| == |white| {
      var b := |blue|;
      assert v * b + (5 - v) * b == 5 * b by {
        assert v * b + (5 - v) * b == (v + (5 - v)) * b;
      }
    }
  }

  /** `s * n` for a one-character `s`: `n` copies of that character. */
  lemma {:induction false} RepeatChar(c: char, n: nat)
    ensures |Repeat([c], n)| == n
    ensures forall i :: 0 <= i < n ==> Repeat([c], n)[i] == c
  {
    if n > 0 {
      RepeatChar(c, n - 1);
      assert Repeat([c], n) == [c] + Repeat([c], n - 1);
    }
  }

  /**
   * With the bars of markdown_formatter.py, one character each, an effort
   * from 1 to 5 shows exactly five bars: `v` blue ones, then white ones.
   */
  lemma LegacyEffortBars(value: Value, repr: Value -> string)
    requires 0 < EffortValue(value, repr) <= 5
    ensures var v := EffortValue(value, repr);
            var bars := Repeat(LegacyBlueBar, v) + Repeat(LegacyWhiteBar, 5 - v);
            && EffortShown(value, LegacyBlueBar, LegacyWhiteBar, repr) == IntToString(v) + " " + bars
            && |bars| == 5
            && (forall i :: 0 <= i < v ==> bars[i] == '\U{1F535}')
            && (forall i :: v <= i < 5 ==> bars[i] == '\U{26AA}')
  {
    var v := EffortValue(value, repr);
    EffortShownPositive(value, LegacyBlueBar, LegacyWhiteBar, repr, v);
    RepeatChar('\U{1F535}', v);
    RepeatChar('\U{26AA}', 5 - v);
  }

  // ----- relevant tests -----

  const NoRelevantTests := "No relevant tests"
  const HasTests := "PR contains tests"

  /** The answer the tests section tests: the value as text, stripped and in lower case. */
  function TestsAnswer(value: Value, repr: Value -> string): Value
  {
    Str(Lower(Strip(PyStr(value, repr))))
  }

  /** `_process_relevant_tests`: "No relevant tests" exactly when the normalised answer is a no. */
  function ProcessRelevantTests(value: Value, emoji: string, gfm: bool, repr: Value -> string): (r: string)
    ensures StartsWith(r, Lead(gfm, emoji) + NoRelevantTests) <==> IsValueNo(TestsAnswer(value, repr), repr)
    ensures StartsWith(r, Lead(gfm, emoji) + HasTests) <==> !IsValueNo(TestsAnswer(value, repr), repr)
  {
    var title := if IsValueNo(TestsAnswer(value, repr), repr) then NoRelevantTests else HasTests;
    BlockStarts(gfm, emoji, title, "", Close(gfm));
    BlockTitle(gfm, emoji, title, NoRelevantTests, "", Close(gfm));
    BlockTitle(gfm, emoji, title, HasTests, "", Close(gfm));
    Block(gfm, emoji, title, "", Close(gfm))
  }

  /**
   * For a text with something besides whitespace, the tests section answers
   * as `is_value_no` on the text itself would; a text of whitespace only
   * counts as no tests.
   */
  lemma RelevantTestsOfText(s: string, emoji: string, gfm: bool, repr: Value -> string)
    ensures Strip(s) != [] ==>
              (StartsWith(ProcessRelevantTests(Str(s), emoji, gfm, repr), Lead(gfm, emoji) + NoRelevantTests)
               <==> IsValueNo(Str(s), repr))
    ensures Strip(s) == [] ==> StartsWith(ProcessRelevantTests(Str(s), emoji, gfm, repr), Lead(gfm, emoji) + NoRelevantTests)
  {
    IsValueNoNormalised(s, repr);
  }

  // ----- contribution time -----

  const ContributionTitle := "Contribution time estimate"

  /** An estimate with each 'm' spelt out as " minutes". */
  function Minutes(s: string): string
  {
    ReplaceAll(s, "m", " minutes")
  }

  /** `value[key].replace(...)`: a value that is not a dictionary, a missing key and a non-text estimate all raise. */
  function Estimate(value: Value, key: string): (r: Result<string>)
    ensures r.Ok? <==> value.Dict? && key in value.fields && value.fields[key].Str?
    ensures r.Ok? ==> r.value == Minutes(value.fields[key].s)
  {
    if !value.Dict? then Err(TypeError)
    else if key !in value.fields then Err(KeyError(key))
    else if !value.fields[key].Str? then Err(AttributeError)
    else Ok(Minutes(value.fields[key].s))
  }

  /** The three estimates, in the order best, average, worst. */
  function Times(best: string, average: string, worst: string): string
  {
    best + " | " + average + " | " + worst
  }

  /** `_process_contribution_time_estimate`: the row ends with the best, average and worst case, in that order. */
  function ProcessContributionTime(value: Value, emoji: string, gfm: bool): (r: Result<string>)
    ensures r.Ok? <==> Estimate(value, "best_case").Ok? && Estimate(value, "average_case").Ok?
                       && Estimate(value, "worst_case").Ok?
    ensures r.Ok? ==> StartsWith(r.value, Lead(gfm, emoji) + ContributionTitle)
    ensures r.Ok? ==> EndsWith(r.value, Times(Estimate(value, "best_case").value, Estimate(value, "average_case").value,
                                              Estimate(value, "worst_case").value) + Close(gfm))
  {
    var best := Estimate(value, "best_case");
    var average := Estimate(value, "average_case");
    var worst := Estimate(value, "worst_case");
    if best.Err? then Err(best.error)
    else if average.Err? then Err(average.error)
    else if worst.Err? then Err(worst.error)
    else
      var times := Times(best.value, average.value, worst.value);
      var pre := " (best, average, worst case): ";
      BlockStarts(gfm, emoji, ContributionTitle, pre + times, Close(gfm));
      BlockEnds(gfm, emoji, ContributionTitle, pre, times, Close(gfm));
      Ok(Block(gfm, emoji, ContributionTitle, pre + times, Close(gfm)))
  }

  // ----- security concerns -----

  const NoSecurityConcerns := "No security concerns identified"
  const SecurityTitle := "Security concerns"

  /**
   * `_process_security_concerns`: "No security concerns identified" exactly
   * when the value is a no; otherwise the stripped text with its header
   * emphasised. A value that is not text raises `AttributeError`.
   */
  function ProcessSecurityConcerns(value: Value, emoji: string, gfm: bool, repr: Value -> string): (r: Result<string>)
    ensures r.Err? <==> !IsValueNo(value, repr) && !value.Str?
    ensures r.Ok? ==> (StartsWith(r.value, Lead(gfm, emoji) + NoSecurityConcerns) <==> IsValueNo(value, repr))
    ensures r.Ok? && !IsValueNo(value, repr) ==>
              StartsWith(r.value, Lead(gfm, emoji) + SecurityTitle)
              && Contains(r.value, EmphasizeHeader(Strip(value.s), !gfm, ""))
  {
    if IsValueNo(value, repr) then
      BlockStarts(gfm, emoji, NoSecurityConcerns, "", Close(gfm));
      Ok(Block(gfm, emoji, NoSecurityConcerns, "", Close(gfm)))
    else if !value.Str? then Err(AttributeError)
    else
      var e := EmphasizeHeader(Strip(value.s), !gfm, "");
      var pre := if gfm then "<br><br>\n\n" else "\n\n";
      BlockStarts(gfm, emoji, SecurityTitle, pre + e, Close(gfm));
      BlockTitle(gfm, emoji, SecurityTitle, NoSecurityConcerns, pre + e, Close(gfm));
      BlockContains(gfm, emoji, SecurityTitle, pre, e, Close(gfm));
      Ok(Block(gfm, emoji, SecurityTitle, pre + e, Close(gfm)))
  }

  // ----- to-do sections -----

  const NoTodoSections := "No TODO sections"
  const TodoTitle := "TODO sections"

  /**
   * `_process_todo_sections`: "No TODO sections", with its own mark `done`,
   * for a no; the formatted items otherwise.
   */
  function ProcessTodoSections(value: Value, emoji: string, gfm: bool, done: string, provider: Option<LinkFn>,
                               repr: Value -> string): (r: Result<string>)
    ensures IsValueNo(value, repr) ==> r.Ok? && StartsWith(r.value, Lead(gfm, done) + NoTodoSections)
    ensures !IsValueNo(value, repr) ==> (r.Ok? <==> TodoItemsText(value, provider, gfm, repr).Ok?)
    ensures !IsValueNo(value, repr) && r.Ok? ==>
              StartsWith(r.value, Lead(gfm, emoji) + TodoTitle)
              && Contains(r.value, TodoItemsText(value, provider, gfm, repr).value)
  {
    if IsValueNo(value, repr) then
      BlockStarts(gfm, done, NoTodoSections, "", Close(gfm));
      Ok(Block(gfm, done, NoTodoSections, "", Close(gfm)))
    else
      match TodoItemsText(value, provider, gfm, repr)
      case Err(e) => Err(e)
      case Ok(items) =>
        var pre := if gfm then "\n<br><br>\n" else "\n\n";
        var close := if gfm then Close(gfm) else "";
        BlockStarts(gfm, emoji, TodoTitle, pre + items, close);
        BlockContains(gfm, emoji, TodoTitle, pre, items, close);
        Ok(Block(gfm, emoji, TodoTitle, pre + items, close))
  }

  /**
   * The two modules' to-do rows differ only in the check mark of a no:
   * any other answer renders the same with either mark.
   */
  lemma TodoMarkOnlyForNo(value: Value, emoji: string, gfm: bool, provider: Option<LinkFn>, repr: Value -> string)
    requires !IsValueNo(value, repr)
    ensures ProcessTodoSections(value, emoji, gfm, DoneMark, provider, repr)
              == ProcessTodoSections(value, emoji, gfm, LegacyDoneMark, provider, repr)
  {
  }

  // ----- key issues -----

  const NoIssues := "No major issues detected"
  const FocusTitle := "Recommended focus areas for review"

  /** What an issue needs besides its own fields: the mode, the provider's link, the files and the excerpt oracles. */
  datatype IssueContext = IssueContext(gfm: bool, provider: Option<LinkFn>, files: seq<FileData>,
                                       language: string -> string, dedentText: string -> string)

  /** The fields of an issue, read and converted. */
  datatype Issue = Issue(file: string, header: string, content: string, start: int, end: int)

  /** `int(str(v).strip())`. */
  function LineNumber(v: Value, repr: Value -> string): Option<int>
  {
    ParseInt(PyStr(v, repr))
  }

  /**
   * The fields of one issue of the list: `None` when the issue is skipped,
   * because it is empty or not a dictionary, or because reading it raises (a
   * field that is not text, a line number that is not an integer), which the
   * loop catches.
   */
  function IssueFields(issue: Value, repr: Value -> string): (r: Option<Issue>)
    ensures r.Some? ==> Truthy(issue) && issue.Dict?
    ensures r.Some? ==> TextField(issue.fields, "relevant_file") == Ok(r.value.file)
                        && TextField(issue.fields, "issue_header") == Ok(r.value.header)
                        && TextField(issue.fields, "issue_content") == Ok(r.value.content)
  {
    if !Truthy(issue) || !issue.Dict? then None
    else
      var d := issue.fields;
      var file := TextField(d, "relevant_file");
      var header := TextField(d, "issue_header");
      var content := TextField(d, "issue_content");
      var start := LineNumber(GetOr(d, "start_line", Int(0)), repr);
      var end := LineNumber(GetOr(d, "end_line", Int(0)), repr);
      if file.Err? || header.Err? || content.Err? || start.None? || end.None? then None
      else Some(Issue(file.value, header.value, content.value, start.value, end.value))
  }

  /** The header shown for an issue: a 'possible bug', in any case, is shown as 'Possible Issue'. */
  function IssueHeader(header: string): (r: string)
    ensures Lower(header) == "possible bug" ==> r == "Possible Issue"
    ensures Lower(header) != "possible bug" ==> r == header
  {
    if Lower(header) == "possible bug" then "Possible Issue" else header
  }

  /** The provider's link to the issue's lines, or none. */
  function IssueLink(ctx: IssueContext, f: Issue): string
  {
    if ctx.provider.Some? then ctx.provider.value(f.file, Int(f.start), Int(f.end)) else ""
  }

  /** The code the issue is about, from the pull request's files. */
  function IssueExcerpt(ctx: IssueContext, f: Issue): string
  {
    RelevantLines(f.end, ctx.files, f.file, f.start, true, ctx.language, ctx.dedentText)
  }

  /** The header in bold: HTML with GitHub markdown, asterisks otherwise. */
  function Emph(gfm: bool, header: string): string
  {
    if gfm then "<strong>" + header + "</strong>" else "**" + header + "**"
  }

  /** What comes before the bold header: the opening of the details block or of the link. */
  function BeforeHeader(gfm: bool, link: string, lines: string): string
  {
    if gfm then
      if link == "" then ""
      else if lines != "" then "<details><summary><a href='" + link + "'>"
      else "<a href='" + link + "'>"
    else if link == "" then "" else "["
  }

  /** What comes after the bold header: the link's end, the content and, in a details block, the excerpt. */
  function AfterHeader(gfm: bool, content: string, link: string, lines: string): string
  {
    if gfm then
      if link == "" then "<br>" + content
      else if lines != "" then "</a>\n\n" + content + "\n</summary>\n\n" + lines + "\n\n</details>"
      else "</a><br>" + content
    else if link == "" then "\n\n" + content + "\n\n"
    else "](" + link + ")\n\n" + content + "\n\n"
  }

  /** One issue as rendered, with its separating blank line. */
  function IssueText(issue: Value, ctx: IssueContext, repr: Value -> string): Option<string>
  {
    match IssueFields(issue, repr)
    case None => None
    case Some(f) =>
      var link := IssueLink(ctx, f);
      var lines := IssueExcerpt(ctx, f);
      Some(BeforeHeader(ctx.gfm, link, lines) + Emph(ctx.gfm, IssueHeader(f.header))
           + AfterHeader(ctx.gfm, f.content, link, lines) + "\n\n")
  }

  /** Every issue that is read shows its header in bold, and a 'possible bug' as 'Possible Issue'. */
  lemma IssueShowsHeader(issue: Value, ctx: IssueContext, repr: Value -> string)
    requires IssueFields(issue, repr).Some?
    ensures IssueText(issue, ctx, repr).Some?
    ensures Contains(IssueText(issue, ctx, repr).value, Emph(ctx.gfm, IssueHeader(IssueFields(issue, repr).value.header)))
  {
    var f := IssueFields(issue, repr).value;
    var link := IssueLink(ctx, f);
    var lines := IssueExcerpt(ctx, f);
    var x := Emph(ctx.gfm, IssueHeader(f.header));
    var a := BeforeHeader(ctx.gfm, link, lines);
    var b := AfterHeader(ctx.gfm, f.content, link, lines) + "\n\n";
    assert IssueText(issue, ctx, repr).value == a + x + b;
    ContainsMiddle(a, x, b);
  }

  /** The renderer the loop applies to each issue. */
  function IssueRenderer(ctx: IssueContext, repr: Value -> string): Value -> Option<string>
  {
    issue => IssueText(issue, ctx, repr)
  }

  /** The rendered issues, in list order; an issue rendered as `None` adds nothing. */
  function IssuesText(issues: seq<Value>, render: Value -> Option<string>): string
  {
    if issues == [] then ""
    else
      var prev := IssuesText(issues[..|issues| - 1], render);
      match render(issues[|issues| - 1])
      case None => prev
      case Some(t) => prev + t
  }

  /** Issues render one by one: the text of two runs of issues is the text of each, in order. */
  lemma {:induction false} IssuesTextAppend(a: seq<Value>, b: seq<Value>, render: Value -> Option<string>)
    ensures IssuesText(a + b, render) == IssuesText(a, render) + IssuesText(b, render)
    decreases |b|
  {
    if b == [] {
      assert a + b == a;
    } else {
      var init := b[..|b| - 1];
      IssuesTextAppend(a, init, render);
      assert (a + b)[..|a + b| - 1] == a + init;
      assert (a + b)[|a + b| - 1] == b[|b| - 1];
    }
  }

  /** An empty issue or one that is not a dictionary adds nothing. */
  lemma SkippedIssue(issues: seq<Value>, issue: Value, ctx: IssueContext, repr: Value -> string)
    requires !Truthy(issue) || !issue.Dict?
    ensures IssuesText(issues + [issue], IssueRenderer(ctx, repr)) == IssuesText(issues, IssueRenderer(ctx, repr))
  {
    assert (issues + [issue])[..|issues|] == issues;
    assert IssueFields(issue, repr).None?;
  }

  /** The opening of the focus-areas section, before the issues. */
  function FocusIntro(gfm: bool): string
  {
    if gfm then "<br><br>\n\n" else "\n\n#### \n"
  }

  /**
   * `_process_key_issues`: "No major issues detected" for a no; otherwise
   * the focus-areas heading and every issue that renders. Iterating a text
   * or a dictionary yields texts, which are all skipped; iterating anything
   * else raises `TypeError`, outside the per-issue handler.
   */
  function KeyIssues(value: Value, emoji: string, ctx: IssueContext, repr: Value -> string): (r: Result<string>)
    ensures r.Err? <==> !IsValueNo(value, repr) && !(value.List? || value.Str? || value.Dict?)
    ensures r.Ok? ==> (StartsWith(r.value, Lead(ctx.gfm, emoji) + NoIssues) <==> IsValueNo(value, repr))
    ensures r.Ok? && !IsValueNo(value, repr) ==>
              StartsWith(r.value, Lead(ctx.gfm, emoji) + FocusTitle)
              && Contains(r.value, IssuesText(if value.List? then value.items else [], IssueRenderer(ctx, repr)))
  {
    if IsValueNo(value, repr) then
      BlockStarts(ctx.gfm, emoji, NoIssues, "", Close(ctx.gfm));
      Ok(Block(ctx.gfm, emoji, NoIssues, "", Close(ctx.gfm)))
    else if !(value.List? || value.Str? || value.Dict?) then Err(TypeError)
    else
      var issues := IssuesText(if value.List? then value.items else [], IssueRenderer(ctx, repr));
      var close := if ctx.gfm then Close(ctx.gfm) else "";
      BlockStarts(ctx.gfm, emoji, FocusTitle, FocusIntro(ctx.gfm) + issues, close);
      BlockTitle(ctx.gfm, emoji, FocusTitle, NoIssues, FocusIntro(ctx.gfm) + issues, close);
      BlockContains(ctx.gfm, emoji, FocusTitle, FocusIntro(ctx.gfm), issues, close);
      Ok(Block(ctx.gfm, emoji, FocusTitle, FocusIntro(ctx.gfm) + issues, close))
  }

  /** One issue, as the loop body renders it, calling the excerpt extraction. */
  method FormatIssue(issue: Value, ctx: IssueContext, repr: Value -> string) returns (r: Option<string>)
    ensures r == IssueText(issue, ctx, repr)
  {
    var fields := IssueFields(issue, repr);
    if fields.None? {
      return None;
    }
    var f := fields.value;
    var header := f.header;
    if Lower(header) == "possible bug" {
      header := "Possible Issue";
    }
    var relevantLinesStr := ExtractRelevantLinesStr(f.end, ctx.files, f.file, f.start, true, ctx.language, ctx.dedentText);
    var referenceLink := "";
    if ctx.provider.Some? {
      referenceLink := ctx.provider.value(f.file, Int(f.start), Int(f.end));
    }
    var issueStr := BeforeHeader(ctx.gfm, referenceLink, relevantLinesStr) + Emph(ctx.gfm, header)
                    + AfterHeader(ctx.gfm, f.content, referenceLink, relevantLinesStr);
    return Some(issueStr + "\n\n");
  }

  /** `_process_key_issues`, with its loop over the issues. */
  method ProcessKeyIssues(value: Value, emoji: string, ctx: IssueContext, repr: Value -> string) returns (r: Result<string>)
    ensures r == KeyIssues(value, emoji, ctx, repr)
  {
    if IsValueNo(value, repr) {
      return Ok(Block(ctx.gfm, emoji, NoIssues, "", Close(ctx.gfm)));
    }
    if !(value.List? || value.Str? || value.Dict?) {
      return Err(TypeError);
    }
    var issues := if value.List? then value.items else [];
    var markdownText := Open(ctx.gfm, emoji, FocusTitle) + FocusIntro(ctx.gfm);
    var issuesText := RenderIssues(issues, ctx, repr);
    markdownText := markdownText + issuesText;
    if ctx.gfm {
      markdownText := markdownText + Close(ctx.gfm);
    } else {
      assert markdownText + "" == markdownText;
    }
    BlockPieces(ctx.gfm, emoji, FocusTitle, FocusIntro(ctx.gfm), issuesText, if ctx.gfm then Close(ctx.gfm) else "");
    return Ok(markdownText);
  }

  /** The loop of `_process_key_issues`: each issue that renders is appended, the others are skipped. */
  method RenderIssues(issues: seq<Value>, ctx: IssueContext, repr: Value -> string) returns (text: string)
    ensures text == IssuesText(issues, IssueRenderer(ctx, repr))
  {
    var render := IssueRenderer(ctx, repr);
    text := "";
    for k := 0 to |issues|
      invariant text == IssuesText(issues[..k], render)
    {
      assert issues[..k + 1][..k] == issues[..k];
      var issueStr := FormatIssue(issues[k], ctx, repr);
      assert render(issues[k]) == issueStr;
      if issueStr.Some? {
        text := text + issueStr.value;
      }
    }
    assert issues[..|issues|] == issues;
  }

  // ----- split themes -----

  /** The key order of a dictionary lists exactly its keys. */
  ghost predicate IteratesKeys(keyOrder: Dict -> seq<string>, d: Dict)
  {
    forall k :: k in keyOrder(d) <==> k in d
  }

  /** `for x in v`: a list's items, a text's characters, a dictionary's keys in insertion order; other values raise. */
  function Iterated(v: Value, keyOrder: Dict -> seq<string>): Result<seq<Value>>
  {
    match v
    case List(items) => Ok(items)
    case Str(s) => Ok(seq(|s|, i requires 0 <= i < |s| => Str([s[i]])))
    case Dict(fields) => Ok(seq(|keyOrder(fields)|, i requires 0 <= i < |keyOrder(fields)| => Str(keyOrder(fields)[i])))
    case _ => Err(TypeError)
  }

  /** The lines listing a theme's files. */
  function FileLines(files: seq<Value>, repr: Value -> string): string
  {
    if files == [] then "" else FileLines(files[..|files| - 1], repr) + "- " + PyStr(files[|files| - 1], repr) + "\n"
  }

  /** One theme's details block; a theme that is not a dictionary, or whose files cannot be iterated, raises. */
  function ThemeText(split: Value, keyOrder: Dict -> seq<string>, repr: Value -> string): Result<string>
  {
    if !split.Dict? then Err(AttributeError)
    else
      var title := GetOr(split.fields, "title", Str(""));
      match Iterated(GetOr(split.fields, "relevant_files", List([])), keyOrder)
      case Err(e) => Err(e)
      case Ok(files) =>
        Ok("<details><summary>\nSub-PR theme: <b>" + PyStr(title, repr) + "</b></summary>\n\n"
           + "___\n\nRelevant files:\n\n" + FileLines(files, repr) + "___\n\n" + "</details>\n\n")
  }

  /** The themes' blocks in order; the first error is raised. */
  function ThemesText(splits: seq<Value>, keyOrder: Dict -> seq<string>, repr: Value -> string): Result<string>
  {
    if splits == [] then Ok("")
    else
      match ThemesText(splits[..|splits| - 1], keyOrder, repr)
      case Err(e) => Err(e)
      case Ok(prev) =>
        match ThemeText(splits[|splits| - 1], keyOrder, repr)
        case Err(e) => Err(e)
        case Ok(t) => Ok(prev + t)
  }

  function NoThemes(emoji: string): string
  {
    emoji + " <strong>No multiple PR themes</strong>\n\n"
  }

  function ThemesHead(emoji: string): string
  {
    emoji + " <strong>Multiple PR themes</strong><br><br>\n\n"
  }

  /** A theme that is not a dictionary makes the whole list raise. */
  lemma {:induction false} ThemesErrorAt(splits: seq<Value>, keyOrder: Dict -> seq<string>, repr: Value -> string, k: nat)
    requires k < |splits| && !splits[k].Dict?
    ensures ThemesText(splits, keyOrder, repr).Err?
    decreases |splits|
  {
    if k < |splits| - 1 {
      ThemesErrorAt(splits[..|splits| - 1], keyOrder, repr, k);
      assert splits[..|splits| - 1][k] == splits[k];
    }
  }

  /** Once a prefix of the themes raises, the whole list raises. */
  lemma {:induction false} ThemesErrorStays(splits: seq<Value>, keyOrder: Dict -> seq<string>, repr: Value -> string, n: nat)
    requires n <= |splits| && ThemesText(splits[..n], keyOrder, repr).Err?
    ensures ThemesText(splits, keyOrder, repr) == ThemesText(splits[..n], keyOrder, repr)
    decreases |splits| - n
  {
    if n == |splits| {
      assert splits[..n] == splits;
    } else {
      assert splits[..n + 1][..n] == splits[..n];
      ThemesErrorStays(splits, keyOrder, repr, n + 1);
    }
  }

  /** A non-empty text or dictionary of themes raises on its first element. */
  lemma TextThemesRaise(value: Value, keyOrder: Dict -> seq<string>, repr: Value -> string)
    ensures Truthy(value) && (value.Str? || (value.Dict? && IteratesKeys(keyOrder, value.fields))) ==>
              Iterated(value, keyOrder).Ok? && ThemesText(Iterated(value, keyOrder).value, keyOrder, repr).Err?
  {
    if !Truthy(value) || !(value.Str? || (value.Dict? && IteratesKeys(keyOrder, value.fields))) {
      return;
    }
    var splits := Iterated(value, keyOrder).value;
    if value.Dict? {
      var k :| k in value.fields;
      assert k in keyOrder(value.fields);
    }
    assert splits != [];
    ThemesErrorAt(splits, keyOrder, repr, 0);
  }

  /**
   * `process_can_be_split`: "No multiple PR themes" for a falsy value or a
   * list of one theme; otherwise a details block per theme. Anything that
   * raises on the way makes the whole section empty; this includes a
   * non-empty text such as "No", whose characters are not dictionaries.
   */
  function CanBeSplit(emoji: string, value: Value, keyOrder: Dict -> seq<string>, repr: Value -> string): (r: string)
    ensures !Truthy(value) || (value.List? && |value.items| == 1) ==> r == NoThemes(emoji)
    ensures Truthy(value) && !value.List? && (value.Dict? ==> IteratesKeys(keyOrder, value.fields)) ==> r == ""
    ensures value.List? && |value.items| >= 2 ==>
              (r == "" <==> ThemesText(value.items, keyOrder, repr).Err?)
              && (r != "" ==> r == ThemesHead(emoji) + ThemesText(value.items, keyOrder, repr).value)
  {
    if !Truthy(value) || (value.List? && |value.items| == 1) then NoThemes(emoji)
    else
      match Iterated(value, keyOrder)
      case Err(_) => ""
      case Ok(splits) =>
        TextThemesRaise(value, keyOrder, repr);
        match ThemesText(splits, keyOrder, repr)
        case Err(_) => ""
        case Ok(t) => ThemesHead(emoji) + t
  }

  /** The theme's file lines, as the inner loop writes them. */
  method ListFiles(files: seq<Value>, repr: Value -> string) returns (text: string)
    ensures text == FileLines(files, repr)
  {
    text := "";
    for k := 0 to |files|
      invariant text == FileLines(files[..k], repr)
    {
      assert files[..k + 1][..k] == files[..k];
      text := text + "- " + PyStr(files[k], repr) + "\n";
    }
    assert files[..|files|] == files;
  }

  /** One theme's block, as the loop body writes it. */
  method FormatTheme(split: Value, keyOrder: Dict -> seq<string>, repr: Value -> string) returns (r: Result<string>)
    ensures r == ThemeText(split, keyOrder, repr)
  {
    if !split.Dict? {
      return Err(AttributeError);
    }
    var title := GetOr(split.fields, "title", Str(""));
    var relevantFiles := Iterated(GetOr(split.fields, "relevant_files", List([])), keyOrder);
    if relevantFiles.Err? {
      return Err(relevantFiles.error);
    }
    var markdownText := "<details><summary>\nSub-PR theme: <b>" + PyStr(title, repr) + "</b></summary>\n\n";
    markdownText := markdownText + "___\n\nRelevant files:\n\n";
    var fileLines := ListFiles(relevantFiles.value, repr);
    markdownText := markdownText + fileLines;
    markdownText := markdownText + "___\n\n";
    markdownText := markdownText + "</details>\n\n";
    return Ok(markdownText);
  }

  /** `process_can_be_split`, with its loops over the themes and their files. */
  method ProcessCanBeSplit(emoji: string, value: Value, keyOrder: Dict -> seq<string>, repr: Value -> string)
    returns (markdownText: string)
    ensures markdownText == CanBeSplit(emoji, value, keyOrder, repr)
  {
    if !Truthy(value) || (value.List? && |value.items| == 1) {
      return NoThemes(emoji);
    }
    var splits := Iterated(value, keyOrder);
    if splits.Err? {
      return "";
    }
    TextThemesRaise(value, keyOrder, repr);
    var themes := RenderThemes(splits.value, keyOrder, repr);
    if themes.Err? {
      return "";
    }
    markdownText := ThemesHead(emoji) + themes.value;
  }

  /** The loop of `process_can_be_split` over the themes; the first theme that raises ends it. */
  method RenderThemes(splits: seq<Value>, keyOrder: Dict -> seq<string>, repr: Value -> string) returns (r: Result<string>)
    ensures r == ThemesText(splits, keyOrder, repr)
  {
    var text := "";
    for k := 0 to |splits|
      invariant ThemesText(splits[..k], keyOrder, repr) == Ok(text)
    {
      assert splits[..k + 1][..k] == splits[..k];
      var block := FormatTheme(splits[k], keyOrder, repr);
      if block.Err? {
        ThemesErrorStays(splits, keyOrder, repr, k + 1);
        return Err(block.error);
      }
      text := text + block.value;
    }
    assert splits[..|splits|] == splits;
    return Ok(text);
  }
}
