/**
 * `parse_code_suggestion`: one code suggestion, given as the ordered items of
 * its dictionary, rendered either as an HTML table (GitHub markdown, when the
 * suggestion names a relevant line) or as a markdown bullet list.
 */
module SuggestionFormatter {
  import opened Text
  import opened PyValues

  /** A dictionary's items in insertion order. */
  type Entries = seq<(string, Value)>

  /** `key in code_suggestion`. */
  predicate HasKey(entries: Entries, key: string)
  {
    exists i | 0 <= i < |entries| :: entries[i].0 == key
  }

  // ----- the table form -----

  const Quotes: set<char> := {'`', '"', '\''}

  /** `relevant_file.strip('`').strip('"').strip("'")`. */
  function Unquote(s: string): string
  {
    StripChars(StripChars(StripChars(s, {'`'}), {'"'}), {'\''})
  }

  /** Neither end of `s` is a quote character. */
  predicate Bare(s: string)
  {
    s == [] || (s[0] !in Quotes && s[|s| - 1] !in Quotes)
  }

  lemma StripNothing(s: string, cs: set<char>)
    requires s == [] || (s[0] !in cs && s[|s| - 1] !in cs)
    ensures StripChars(s, cs) == s
  {
  }

  lemma StripEnclosing(x: string, c: char)
    requires x == [] || (x[0] != c && x[|x| - 1] != c)
    ensures StripChars([c] + x + [c], {c}) == x
  {
    var s := [c] + x + [c];
    assert s[1..] == x + [c];
    assert LStripChars(s, {c}) == LStripChars(x + [c], {c});
    if x != [] {
      assert (x + [c])[0] == x[0];
      assert LStripChars(x + [c], {c}) == x + [c];
      assert (x + [c])[..|x|] == x;
      assert RStripChars(x + [c], {c}) == RStripChars(x, {c});
    } else {
      assert LStripChars([c], {c}) == LStripChars([c][1..], {c});
    }
  }

  /** A file name quoted with backticks or either kind of quote loses exactly its quotes. */
  lemma QuotedFileName(name: string, q: char)
    requires q in Quotes && Bare(name)
    ensures Unquote([q] + name + [q]) == name
  {
    var s := [q] + name + [q];
    StripEnclosing(name, q);
    if q == '`' {
      StripNothing(name, {'"'});
      StripNothing(name, {'\''});
    } else if q == '"' {
      StripNothing(s, {'`'});
      StripNothing(name, {'\''});
    } else {
      StripNothing(s, {'`'});
      StripNothing(s, {'"'});
    }
  }

  /** The text of a relevant line: its part before `](`, without leading backticks and brackets. */
  function LineLabel(part: string): string
  {
    LStripChars(LStripChars(part, {'`'}), {'['})
  }

  /** The link target: the part after `](`, without trailing parentheses and enclosing backticks. */
  function LineTarget(part: string): string
  {
    StripChars(RStripChars(part, {')'}), {'`'})
  }

  /** The cell for a relevant line: a link when the line is a markdown link, the text otherwise. */
  function LineCell(line: string): string
  {
    var parts := Split(line, "](");
    if |parts| > 1 then "<td><a href='" + LineTarget(parts[1]) + "'>" + LineLabel(parts[0]) + "</a></td>"
    else "<td>" + LineLabel(parts[0]) + "</td>"
  }

  /** One row of the table; a non-text value makes the source raise, which leaves out whatever was not yet appended. */
  function TableRow(key: string, value: Value): string
  {
    var low := Lower(key);
    if low == "relevant_file" then
      (if value.Str? then "<tr><td>relevant file</td><td>" + Unquote(value.s) + "</td></tr>" else "")
    else if low == "suggestion" then
      (if value.Str? then "<tr><td>" + key + " &nbsp;&nbsp;&nbsp;&nbsp;&nbsp;</td><td>\n\n<strong>\n\n" + Strip(value.s) + "\n\n</strong>\n</td></tr>"
       else "")
    else if low == "relevant_line" then
      "<tr><td>relevant line</td>" + (if value.Str? then LineCell(value.s) + "</tr>" else "")
    else ""
  }

  function TableRows(entries: Entries): string
  {
    if entries == [] then ""
    else TableRows(entries[..|entries| - 1]) + TableRow(entries[|entries| - 1].0, entries[|entries| - 1].1)
  }

  /** `find` lands on an occurrence with none before it. */
  lemma FindAt(s: string, p: string, i: nat)
    requires OccursAt(s, p, i)
    requires forall j :: 0 <= j < i ==> !OccursAt(s, p, j)
    ensures Find(s, p) == i
  {
    FindFromFirst(s, p, 0);
  }

  lemma NoLinkMarkAfter(url: string)
    requires !Contains(url, "](")
    ensures !Contains(url + ")", "](")
  {
    var t := url + ")";
    ContainsIff(url, "](");
    forall j | 0 <= j && j + 2 <= |t|
      ensures !OccursAt(t, "](", j)
    {
      if j + 2 <= |url| {
        assert t[j..j + 2] == url[j..j + 2];
        assert !OccursAt(url, "](", j);
      } else {
        assert t[j..j + 2][1] == ')';
      }
    }
    ContainsIff(t, "](");
  }

  lemma NoLinkMarkBefore(caption: string, rest: string)
    requires !Contains(caption, "](")
    requires rest == [] || rest[0] != '('
    ensures forall j :: 0 <= j <= |caption| ==> !OccursAt("[" + caption + rest, "](", j)
  {
    var line := "[" + caption + rest;
    ContainsIff(caption, "](");
    forall j | 0 <= j <= |caption|
      ensures !OccursAt(line, "](", j)
    {
      if j + 2 <= |line| {
        var w := line[j..j + 2];
        if j == 0 {
          assert w[0] == '[';
        } else if j < |caption| {
          assert w == caption[j - 1..j + 1];
          assert !OccursAt(caption, "](", j - 1);
        } else {
          assert w[1] == rest[0];
        }
      }
    }
  }

  /** `[caption](url)` splits at `](` into exactly two parts. */
  lemma LinkSplit(caption: string, url: string)
    requires !Contains(caption, "](") && !Contains(url, "](")
    ensures Split("[" + caption + "](" + url + ")", "](") == ["[" + caption, url + ")"]
  {
    var line := "[" + caption + "](" + url + ")";
    var i := 1 + |caption|;
    assert line == "[" + caption + ("](" + url + ")");
    NoLinkMarkBefore(caption, "](" + url + ")");
    assert line[..i] == "[" + caption;
    assert line[i + 2..] == url + ")";
    assert OccursAt(line, "](", i);
    FindAt(line, "](", i);
    NoLinkMarkAfter(url);
    assert Split(url + ")", "](") == [url + ")"];
  }

  lemma LinkTarget(url: string)
    requires url == [] || (url[0] != '`' && url[|url| - 1] != '`' && url[|url| - 1] != ')')
    ensures LineTarget(url + ")") == url
  {
    assert (url + ")")[..|url|] == url;
    assert RStripChars(url + ")", {')'}) == url;
    StripNothing(url, {'`'});
  }

  lemma LinkCaption(caption: string)
    requires caption == [] || caption[0] != '['
    ensures LineLabel("[" + caption) == caption
  {
    var line := "[" + caption;
    assert line[0] == '[' && line[1..] == caption;
    assert LStripChars(line, {'`'}) == line;
    assert LStripChars(line, {'['}) == LStripChars(caption, {'['});
  }

  /** A markdown link `[caption](url)` becomes an HTML link to `url` showing `caption`. */
  lemma MarkdownLinkCell(caption: string, url: string)
    requires !Contains(caption, "](") && !Contains(url, "](")
    requires caption == [] || caption[0] != '['
    requires url == [] || (url[0] != '`' && url[|url| - 1] != '`' && url[|url| - 1] != ')')
    ensures LineCell("[" + caption + "](" + url + ")") == "<td><a href='" + url + "'>" + caption + "</a></td>"
  {
    LinkSplit(caption, url);
    LinkTarget(url);
    LinkCaption(caption);
  }

  /** A relevant line without `](` is shown as text. */
  lemma PlainLineCell(line: string)
    requires !Contains(line, "](")
    ensures LineCell(line) == "<td>" + LineLabel(line) + "</td>"
  {
  }

  // ----- the list form -----

  /** The indentation of the before/after code blocks. */
  const CodeIndent := "        "

  /**
   * The length of the first line of `s`, its line break included, as
   * `splitlines(True)` cuts lines: at "\n", at "\r\n" and at a "\r" not
   * followed by "\n".
   */
  function LineLength(s: string): (n: nat)
    requires s != []
    ensures 0 < n <= |s|
  {
    if s[0] == '\n' || |s| == 1 then 1
    else if s[0] == '\r' then (if s[1] == '\n' then 2 else 1)
    else 1 + LineLength(s[1..])
  }

  /**
   * No line break ends before index `n - 1` of `s`: no "\n" before it, no
   * "\r" before index `n - 2`, and a "\r" there is the start of "\r\n".
   */
  predicate NoBreakBefore(s: string, n: nat)
    requires n <= |s|
  {
    && (forall i :: 0 <= i < n - 1 ==> s[i] != '\n')
    && (forall i :: 0 <= i < n - 2 ==> s[i] != '\r')
    && (n >= 2 && s[n - 2] == '\r' ==> s[n - 1] == '\n')
  }

  /**
   * The first line stops at the first line break and takes it whole: no
   * break comes before its end, and the text either ends there or ends a
   * line there.
   */
  lemma {:induction false} LineLengthSpec(s: string)
    requires s != []
    ensures NoBreakBefore(s, LineLength(s))
    ensures LineLength(s) < |s| ==>
              s[LineLength(s) - 1] == '\n' || (s[LineLength(s) - 1] == '\r' && s[LineLength(s)] != '\n')
    decreases |s|
  {
    if s[0] != '\n' && s[0] != '\r' && |s| > 1 {
      var t := s[1..];
      LineLengthSpec(t);
      var n := LineLength(s);
      assert n == 1 + LineLength(t);
      assert forall i :: 1 <= i < |s| ==> s[i] == t[i - 1];
    }
  }

  /** `a` ends a line even when `b` follows it: with "\n", or with a "\r" that `b` does not continue. */
  predicate EndsLine(a: string, b: string)
  {
    a != [] && (a[|a| - 1] == '\n' || (a[|a| - 1] == '\r' && (b == [] || b[0] != '\n')))
  }

  /** `textwrap.indent(s, prefix)`: `prefix` in front of every line that is not blank. */
  function Indent(s: string, prefix: string): string
    decreases |s|
  {
    if s == [] then ""
    else
      IndentLine(s[..LineLength(s)], prefix) + Indent(s[LineLength(s)..], prefix)
  }

  function IndentLine(line: string, prefix: string): string
  {
    if !Blank(line) then prefix + line else line
  }

  /** A line made of whitespace only. */
  predicate Blank(line: string)
  {
    forall i :: 0 <= i < |line| ==> line[i] in Whitespace
  }

  /** A line is blank exactly when `line.strip()` is empty, the test `textwrap.indent` makes. */
  lemma BlankIffStripEmpty(line: string)
    ensures Blank(line) <==> Strip(line) == []
  {
    var l := LStrip(line);
    LStripCharsSpec(line, Whitespace);
    RStripCharsSpec(l, Whitespace);
  }

  lemma {:induction false} LineLengthAppend(a: string, b: string)
    requires EndsLine(a, b)
    ensures LineLength(a + b) == LineLength(a)
    decreases |a|
  {
    if a[0] != '\n' && a[0] != '\r' && |a| > 1 {
      assert (a + b)[1..] == a[1..] + b;
      LineLengthAppend(a[1..], b);
    }
  }

  /**
   * Indenting works line by line: text cut after a line break ("\n", or a
   * "\r" the rest does not continue with "\n") indents as its two parts.
   */
  lemma {:induction false} IndentAppend(a: string, b: string, prefix: string)
    requires a == [] || EndsLine(a, b)
    ensures Indent(a + b, prefix) == Indent(a, prefix) + Indent(b, prefix)
    decreases |a|
  {
    if a == [] {
      assert a + b == b;
    } else {
      var n := LineLength(a);
      assert LineLength(a + b) == n && (a + b)[..n] == a[..n] && (a + b)[n..] == a[n..] + b by {
        LineLengthAppend(a, b);
      }
      calc {
        Indent(a + b, prefix);
        IndentLine(a[..n], prefix) + Indent(a[n..] + b, prefix);
        { assert a[n..] == [] || a[n..][|a[n..]| - 1] == a[|a| - 1];
          IndentAppend(a[n..], b, prefix); }
        IndentLine(a[..n], prefix) + (Indent(a[n..], prefix) + Indent(b, prefix));
        Indent(a, prefix) + Indent(b, prefix);
      }
    }
  }

  /** An empty prefix leaves the text as it is. */
  lemma {:induction false} IndentNothing(s: string)
    ensures Indent(s, "") == s
    decreases |s|
  {
    if s != [] {
      var n := LineLength(s);
      calc {
        Indent(s, "");
        IndentLine(s[..n], "") + Indent(s[n..], "");
        { IndentLineNothing(s[..n]); IndentNothing(s[n..]); }
        s[..n] + s[n..];
      }
      assert s[..n] + s[n..] == s;
    }
  }

  lemma IndentLineNothing(line: string)
    ensures IndentLine(line, "") == line
  {
    assert "" + line == line;
  }

  /** A fenced code block. */
  function Fence(code: string): string
  {
    "```\n" + code + "\n```"
  }

  /** Three pieces cut after line breaks indent one by one. */
  lemma IndentThree(a: string, m: string, c: string, prefix: string)
    requires EndsLine(a, m + c) && EndsLine(m, c)
    ensures Indent(a + m + c, prefix) == Indent(a, prefix) + Indent(m, prefix) + Indent(c, prefix)
  {
    calc {
      Indent(a + m + c, prefix);
      { assert a + m + c == a + (m + c); }
      Indent(a + (m + c), prefix);
      { IndentAppend(a, m + c, prefix); }
      Indent(a, prefix) + Indent(m + c, prefix);
      { IndentAppend(m, c, prefix); }
      Indent(a, prefix) + (Indent(m, prefix) + Indent(c, prefix));
    }
  }

  /** An indented fenced block keeps its fences, each behind the prefix, around the indented code. */
  lemma FencedBlock(code: string, prefix: string)
    ensures Indent(Fence(code), prefix) == prefix + "```\n" + Indent(code + "\n", prefix) + prefix + "```"
  {
    assert Fence(code) == "```\n" + (code + "\n") + "```";
    IndentThree("```\n", code + "\n", "```", prefix);
    OpenFenceLine(prefix);
    CloseFenceLine(prefix);
  }

  /** A text whose first line is all of it indents as that one line. */
  lemma IndentOneLine(s: string, prefix: string)
    requires s != [] && LineLength(s) == |s|
    ensures Indent(s, prefix) == IndentLine(s, prefix)
  {
    assert s[..|s|] == s;
    assert s[|s|..] == [];
  }

  lemma OpenFenceLine(prefix: string)
    ensures Indent("```\n", prefix) == prefix + "```\n"
  {
    var open := "```\n";
    assert LineLength(open[3..]) == 1;
    assert LineLength(open) == 4;
    IndentOneLine(open, prefix);
    assert !Blank(open) by { assert open[0] !in Whitespace; }
  }

  lemma CloseFenceLine(prefix: string)
    ensures Indent("```", prefix) == prefix + "```"
  {
    var close := "```";
    assert LineLength(close[2..]) == 1;
    assert LineLength(close) == 3;
    IndentOneLine(close, prefix);
    assert !Blank(close) by { assert close[0] !in Whitespace; }
  }

  /** The bullet for one before/after entry of a code example. */
  function CodeBlock(codeKey: string, codeValue: Value, repr: Value -> string): string
  {
    "    - **" + codeKey + ":**\n" + Indent(Fence(PyStr(codeValue, repr)), CodeIndent) + "\n"
  }

  function CodeBlocks(keys: seq<string>, fields: Dict, repr: Value -> string): string
  {
    if keys == [] then ""
    else CodeBlocks(keys[..|keys| - 1], fields, repr) + CodeBlock(keys[|keys| - 1], Get(fields, keys[|keys| - 1]), repr)
  }

  /** A text value loses its trailing whitespace; other values are kept. */
  function ListValue(value: Value): Value
  {
    if value.Str? then Str(RStrip(value.s)) else value
  }

  /** The line a value that is not a dictionary gets: a sub-bullet for the file, an indented line otherwise. */
  function ValueLine(key: string, value: Value, repr: Value -> string): (r: string)
    ensures EndsWith(r, "  \n")
  {
    var shown := PyStr(ListValue(value), repr);
    if Contains(Lower(RStrip(key)), "relevant_file") then "\n  - **" + RStrip(key) + ":** " + shown + "  \n"
    else "   **" + RStrip(key) + ":** " + shown + "  \n"
  }

  /** Lines other than the relevant line have their line break replaced by three spaces and a line break. */
  predicate Rewrapped(key: string)
  {
    !Contains(Lower(RStrip(key)), "relevant_line")
  }

  /** The bullet of a code example, followed by its before/after blocks. */
  function ExampleText(key: string, fields: Dict, keyOrder: Dict -> seq<string>, repr: Value -> string): string
  {
    "  - **" + RStrip(key) + ":**\n" + CodeBlocks(keyOrder(fields), fields, repr)
  }

  /** The source's rewrap, applied to the whole text: `text.rstrip('\n') + "   \n"`. */
  function Reflow(text: string, rewrap: bool): string
  {
    if rewrap then RStripChars(text, {'\n'}) + "   \n" else text
  }

  /** The rewrap applied to one line alone. */
  function Rewrap(line: string, rewrap: bool): string
    requires line != []
  {
    if rewrap then line[..|line| - 1] + "   \n" else line
  }

  /** One step of the list loop as written. */
  function ListStep(md: string, key: string, value: Value, keyOrder: Dict -> seq<string>, repr: Value -> string): string
  {
    var v := ListValue(value);
    if v.Dict? then md + ExampleText(key, v.fields, keyOrder, repr)
    else Reflow(md + ValueLine(key, value, repr), Rewrapped(key))
  }

  function ListLines(entries: Entries, keyOrder: Dict -> seq<string>, repr: Value -> string): string
  {
    if entries == [] then ""
    else
      var (key, value) := entries[|entries| - 1];
      ListStep(ListLines(entries[..|entries| - 1], keyOrder, repr), key, value, keyOrder, repr)
  }

  /** What one entry contributes to the list, on its own. */
  function EntryText(key: string, value: Value, keyOrder: Dict -> seq<string>, repr: Value -> string): string
  {
    var v := ListValue(value);
    if v.Dict? then ExampleText(key, v.fields, keyOrder, repr)
    else Rewrap(ValueLine(key, value, repr), Rewrapped(key))
  }

  /** Stripping line breaks off the whole text stops at the space in front of the line's own break. */
  lemma ReflowLocal(md: string, line: string, rewrap: bool)
    requires EndsWith(line, " \n")
    ensures Reflow(md + line, rewrap) == md + Rewrap(line, rewrap)
  {
    if rewrap {
      var text := md + line;
      assert text[|text| - 1] == line[|line| - 1];
      assert text[|text| - 2] == line[|line| - 2];
      assert text[..|text| - 1] == md + line[..|line| - 1];
      assert RStripChars(text, {'\n'}) == RStripChars(text[..|text| - 1], {'\n'});
    }
  }

  /** The rewrite of the trailing line break never reaches into earlier entries. */
  lemma ListStepLocal(md: string, key: string, value: Value, keyOrder: Dict -> seq<string>, repr: Value -> string)
    ensures ListStep(md, key, value, keyOrder, repr) == md + EntryText(key, value, keyOrder, repr)
  {
    if !ListValue(value).Dict? {
      var line := ValueLine(key, value, repr);
      assert EndsWith(line, " \n") by {
        assert line[|line| - 3..][1..] == line[|line| - 2..];
      }
      ReflowLocal(md, line, Rewrapped(key));
    }
  }

  /** The entries' own texts, in order. */
  function EntryTexts(entries: Entries, keyOrder: Dict -> seq<string>, repr: Value -> string): (r: seq<string>)
    ensures |r| == |entries|
  {
    if entries == [] then []
    else
      var (key, value) := entries[|entries| - 1];
      EntryTexts(entries[..|entries| - 1], keyOrder, repr) + [EntryText(key, value, keyOrder, repr)]
  }

  /** The list is the entries' own texts one after the other. */
  lemma {:induction false} ListLinesConcat(entries: Entries, keyOrder: Dict -> seq<string>, repr: Value -> string)
    ensures ListLines(entries, keyOrder, repr) == Concat(EntryTexts(entries, keyOrder, repr))
  {
    if entries != [] {
      var n := |entries| - 1;
      var (key, value) := entries[n];
      ListLinesConcat(entries[..n], keyOrder, repr);
      ListStepLocal(ListLines(entries[..n], keyOrder, repr), key, value, keyOrder, repr);
      ConcatAppend(EntryTexts(entries[..n], keyOrder, repr), [EntryText(key, value, keyOrder, repr)]);
    }
  }

  // ----- the whole suggestion -----

  /** The table when GitHub markdown is on and the suggestion has a relevant line, the list otherwise. */
  function SuggestionMarkdown(entries: Entries, gfm: bool, keyOrder: Dict -> seq<string>, repr: Value -> string): string
  {
    if gfm && HasKey(entries, "relevant_line") then "<table>" + TableRows(entries) + "</table><hr>"
    else ListLines(entries, keyOrder, repr) + "\n"
  }

  /** The table form is wrapped in a table and ends with a rule; the list form ends with a line break. */
  lemma SuggestionShape(entries: Entries, gfm: bool, keyOrder: Dict -> seq<string>, repr: Value -> string)
    ensures gfm && HasKey(entries, "relevant_line") ==>
              StartsWith(SuggestionMarkdown(entries, gfm, keyOrder, repr), "<table>")
              && EndsWith(SuggestionMarkdown(entries, gfm, keyOrder, repr), "</table><hr>")
    ensures !(gfm && HasKey(entries, "relevant_line")) ==>
              SuggestionMarkdown(entries, gfm, keyOrder, repr) == Concat(EntryTexts(entries, keyOrder, repr)) + "\n"
  {
    ListLinesConcat(entries, keyOrder, repr);
    var r := SuggestionMarkdown(entries, gfm, keyOrder, repr);
    if gfm && HasKey(entries, "relevant_line") {
      AppendPrefix("<table>", TableRows(entries) + "</table><hr>");
      assert r == "<table>" + TableRows(entries) + "</table><hr>";
      assert r[|r| - 12..] == "</table><hr>";
    }
  }

  // ----- the loops -----

  /** The table's rows, appended one entry at a time. */
  method RenderTableRows(entries: Entries) returns (markdownText: string)
    ensures markdownText == TableRows(entries)
  {
    markdownText := "";
    for k := 0 to |entries|
      invariant markdownText == TableRows(entries[..k])
    {
      var (subKey, subValue) := entries[k];
      markdownText := AppendTableRow(markdownText, subKey, subValue);
      TableRowsNext(entries, k);
    }
    assert entries[..|entries|] == entries;
  }

  /** The body of the table loop: one entry's row appended piece by piece. */
  method AppendTableRow(md: string, subKey: string, subValue: Value) returns (markdownText: string)
    ensures markdownText == md + TableRow(subKey, subValue)
  {
    markdownText := md;
    var low := Lower(subKey);
    if low == "relevant_file" {
      if subValue.Str? {
        markdownText := markdownText + ("<tr><td>relevant file</td><td>" + Unquote(subValue.s) + "</td></tr>");
      }
    } else if low == "suggestion" {
      if subValue.Str? {
        markdownText := markdownText + ("<tr><td>" + subKey + " &nbsp;&nbsp;&nbsp;&nbsp;&nbsp;</td><td>\n\n<strong>\n\n"
                                         + Strip(subValue.s) + "\n\n</strong>\n</td></tr>");
      }
    } else if low == "relevant_line" {
      markdownText := markdownText + "<tr><td>relevant line</td>";
      if subValue.Str? {
        markdownText := markdownText + (LineCell(subValue.s) + "</tr>");
      }
    }
  }

  lemma TableRowsNext(entries: Entries, k: nat)
    requires k < |entries|
    ensures TableRows(entries[..k + 1]) == TableRows(entries[..k]) + TableRow(entries[k].0, entries[k].1)
  {
    assert entries[..k + 1][..k] == entries[..k];
  }

  /** The before/after blocks of one code example, in the dictionary's order. */
  method RenderCodeBlocks(fields: Dict, keyOrder: Dict -> seq<string>, repr: Value -> string) returns (markdownText: string)
    ensures markdownText == CodeBlocks(keyOrder(fields), fields, repr)
  {
    var keys := keyOrder(fields);
    markdownText := "";
    for k := 0 to |keys|
      invariant markdownText == CodeBlocks(keys[..k], fields, repr)
    {
      var block := RenderCodeBlock(keys[k], Get(fields, keys[k]), repr);
      CodeBlocksNext(keys, k, fields, repr);
      markdownText := markdownText + block;
    }
    assert keys[..|keys|] == keys;
  }

  /** One key's fenced, indented code block. */
  method RenderCodeBlock(codeKey: string, codeValue: Value, repr: Value -> string) returns (block: string)
    ensures block == CodeBlock(codeKey, codeValue, repr)
  {
    var codeStr := Fence(PyStr(codeValue, repr));
    var codeStrIndented := Indent(codeStr, CodeIndent);
    block := "    - **" + codeKey + ":**\n" + codeStrIndented + "\n";
  }

  lemma CodeBlocksNext(keys: seq<string>, k: nat, fields: Dict, repr: Value -> string)
    requires k < |keys|
    ensures CodeBlocks(keys[..k + 1], fields, repr) == CodeBlocks(keys[..k], fields, repr) + CodeBlock(keys[k], Get(fields, keys[k]), repr)
  {
    assert keys[..k + 1][..k] == keys[..k];
  }

  /** The list's lines, each line break rewritten on the whole text as the source does. */
  method RenderListLines(entries: Entries, keyOrder: Dict -> seq<string>, repr: Value -> string) returns (markdownText: string)
    ensures markdownText == ListLines(entries, keyOrder, repr)
  {
    markdownText := "";
    for k := 0 to |entries|
      invariant markdownText == ListLines(entries[..k], keyOrder, repr)
    {
      var (subKey, subValue) := entries[k];
      var key := RStrip(subKey);
      var value := ListValue(subValue);
      if value.Dict? {
        var blocks := RenderCodeBlocks(value.fields, keyOrder, repr);
        markdownText := markdownText + ("  - **" + key + ":**\n" + blocks);
      } else {
        markdownText := markdownText + ValueLine(subKey, subValue, repr);
        if Rewrapped(subKey) {
          markdownText := RStripChars(markdownText, {'\n'}) + "   \n";
        }
      }
      assert entries[..k + 1][..k] == entries[..k];
    }
    assert entries[..|entries|] == entries;
  }

  /** `parse_code_suggestion`. */
  method ParseCodeSuggestion(entries: Entries, gfm: bool, keyOrder: Dict -> seq<string>, repr: Value -> string)
    returns (markdownText: string)
    ensures markdownText == SuggestionMarkdown(entries, gfm, keyOrder, repr)
  {
    if gfm && HasKey(entries, "relevant_line") {
      var rows := RenderTableRows(entries);
      markdownText := "<table>" + rows;
      markdownText := markdownText + "</table>";
      markdownText := markdownText + "<hr>";
    } else {
      markdownText := RenderListLines(entries, keyOrder, repr);
      markdownText := markdownText + "\n";
    }
  }
}
