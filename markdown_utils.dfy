/**
 * The helpers the review formatters share: the "no value" test, header
 * emphasis, the code excerpt shown for a reviewed line range, and the to-do
 * list.
 */
module MarkdownUtils {
  import opened Wrappers
  import opened Text
  import opened PyValues
  import DualView
  import DiffProcessing

  // ----- is_value_no -----

  /** The answers `is_value_no` reads as a no, once stripped and lower-cased. */
  const NoWords: set<string> := {"no", "none", "false"}

  /**
   * `is_value_no`: a falsy value, or one whose text is a negative answer.
   * None and every empty value are a no; a boolean is a no exactly when it
   * is false, a number exactly when it is 0; a text exactly when it is
   * empty or, stripped and in any case, "no", "none" or "false".
   */
  predicate IsValueNo(v: Value, repr: Value -> string)
    ensures v.Null? || v == Str("") || v == List([]) || v == Dict(map[]) ==> IsValueNo(v, repr)
    ensures v.Bool? ==> (IsValueNo(v, repr) <==> !v.b)
    ensures v.Int? ==> (IsValueNo(v, repr) <==> v.i == 0)
    ensures v.Str? ==> (IsValueNo(v, repr) <==> v.s == "" || Lower(Strip(v.s)) in NoWords)
  {
    TrueTextNotNo();
    assert v.Int? ==> Lower(Strip(IntToString(v.i))) !in NoWords by {
      if v.Int? { NumberTextNotNo(v.i); }
    }
    !Truthy(v) || Lower(Strip(PyStr(v, repr))) in NoWords
  }

  /** The text of a number is never a negative answer: it starts with a digit or '-'. */
  lemma NumberTextNotNo(i: int)
    ensures Lower(Strip(IntToString(i))) !in NoWords
  {
    var t := IntToString(i);
    if i < 0 {
      var d := NatToString(-i);
      assert t[|t| - 1] == d[|d| - 1];
    }
    assert t[0] == '-' || IsDigit(t[0]);
    assert IsDigit(t[|t| - 1]);
    StrippedFixed(t);
    assert Lower(t)[0] == t[0];
  }

  /** "True" is not a negative answer. */
  lemma TrueTextNotNo()
    ensures Lower(Strip("True")) !in NoWords
  {
    StrippedFixed("True");
    assert Lower("True")[0] == 't';
  }

  /** A stripped text: empty, or without whitespace at either end. */
  predicate Stripped(t: string)
  {
    t == [] || (t[0] !in Whitespace && t[|t| - 1] !in Whitespace)
  }

  lemma StripIsStripped(s: string)
    ensures Stripped(Strip(s))
  {
    var l := LStripChars(s, Whitespace);
    LStripCharsSpec(s, Whitespace);
    RStripCharsSpec(l, Whitespace);
    var t := RStripChars(l, Whitespace);
    if t != [] {
      assert t[0] == l[0];
    }
  }

  lemma StrippedFixed(t: string)
    requires Stripped(t)
    ensures Strip(t) == t
  {
    assert LStripChars(t, Whitespace) == t;
  }

  /** Lower-casing keeps a text stripped, since it maps whitespace to whitespace and nothing else to it. */
  lemma LowerStripped(t: string)
    requires Stripped(t)
    ensures Stripped(Lower(t))
  {
  }

  lemma LowerTwice(s: string)
    ensures Lower(Lower(s)) == Lower(s)
  {
    assert forall i :: 0 <= i < |s| ==> Lower(Lower(s))[i] == Lower(s)[i];
  }

  /**
   * Normalising a text the way the relevant-tests section does before the
   * test (`str(value).strip().lower()`) keeps the answer, except for a text
   * made only of whitespace: that one is not a no, but its normal form, the
   * empty text, is.
   */
  lemma IsValueNoNormalised(s: string, repr: Value -> string)
    ensures Strip(s) != [] ==> (IsValueNo(Str(Lower(Strip(s))), repr) <==> IsValueNo(Str(s), repr))
    ensures s != [] && Strip(s) == [] ==> !IsValueNo(Str(s), repr) && IsValueNo(Str(Lower(Strip(s))), repr)
  {
    var t := Strip(s);
    StripIsStripped(s);
    LowerStripped(t);
    StrippedFixed(Lower(t));
    LowerTwice(t);
  }

  // ----- emphasize_header -----

  /** The markup put around the header part, `text[:colon + 1]`, and the line break after it. */
  function Strong(head: string, onlyMarkdown: bool, referenceLink: string): string
  {
    if onlyMarkdown then
      if referenceLink != [] then "[**" + head + "**](" + referenceLink + ")\n" else "**" + head + "**\n"
    else
      if referenceLink != [] then "<strong><a href='" + referenceLink + "'>" + head + "</a></strong><br>"
      else "<strong>" + head + "</strong><br>"
  }

  /**
   * `emphasize_header`: the text up to and including the colon of its first
   * ": " is emphasised, linked when a link is given (an empty link standing
   * for none); a text without ": " is returned as it is.
   */
  function EmphasizeHeader(text: string, onlyMarkdown: bool, referenceLink: string): (r: string)
    ensures !Contains(text, ": ") ==> r == text
    ensures Contains(text, ": ") ==> |r| > |text|
  {
    var i := Find(text, ": ");
    if i == -1 then text else Strong(text[..i + 1], onlyMarkdown, referenceLink) + text[i + 1..]
  }

  /** The split happens at the first ": ": the head ends with its colon, and head and rest make up the text. */
  lemma EmphasizeHeaderAtFirst(text: string, onlyMarkdown: bool, referenceLink: string, k: nat)
    requires OccursAt(text, ": ", k)
    requires forall j :: 0 <= j < k ==> !OccursAt(text, ": ", j)
    ensures EmphasizeHeader(text, onlyMarkdown, referenceLink)
              == Strong(text[..k + 1], onlyMarkdown, referenceLink) + text[k + 1..]
    ensures text == text[..k + 1] + text[k + 1..] && text[k] == ':'
  {
    FindFromAt(text, ": ", 0, k);
    var pair := text[k..k + 2];
    assert pair == ": ";
    assert text[k] == pair[0];
  }

  // ----- extract_relevant_lines_str -----

  type FileData = DiffProcessing.FileData

  /** The first file at or after `i` whose stripped name is `relevantFile`. */
  function FirstMatchFrom(files: seq<FileData>, relevantFile: string, i: nat): (r: Option<nat>)
    requires i <= |files|
    ensures r.Some? ==> i <= r.value < |files| && Strip(files[r.value].filename) == relevantFile
    ensures r.Some? ==> forall j :: i <= j < r.value ==> Strip(files[j].filename) != relevantFile
    ensures r.None? ==> forall j :: i <= j < |files| ==> Strip(files[j].filename) != relevantFile
    decreases |files| - i
  {
    if i == |files| then None
    else if Strip(files[i].filename) == relevantFile then Some(i)
    else FirstMatchFrom(files, relevantFile, i + 1)
  }

  /** The lines `extract_hunk_lines_from_patch` selects on the new side. */
  function SelectedLines(f: FileData, startLine: int, endLine: int): string
  {
    DualView.ExtractHunkLines(f.patch, f.filename, startLine, endLine, "right", true, DualView.AsWritten).1
  }

  /** The new-side text of selected patch lines: '-' lines dropped, the first character of the others removed. */
  function NewSideText(lines: seq<string>): string
  {
    if lines == [] then ""
    else
      var line := lines[|lines| - 1];
      NewSideText(lines[..|lines| - 1]) + (if line != [] && line[0] == '-' then "" else PySlice(line, 1, |line|) + "\n")
  }

  /** The text fenced as a code block of the given language. */
  function Fenced(language: string, body: string): string
  {
    "```" + language + "\n" + body + "\n```"
  }

  /**
   * `extract_relevant_lines_str`: the lines `startLine`..`endLine` of the
   * first file whose stripped name matches, taken from its new content, or
   * from the new side of its patch when it has none; dedented when asked,
   * then fenced. `language` is the language `set_file_languages` gives a
   * file, `dedentText` is `textwrap.dedent`.
   */
  function RelevantLines(endLine: int, files: seq<FileData>, relevantFile: string, startLine: int, dedent: bool,
                         language: string -> string, dedentText: string -> string): string
  {
    match FirstMatchFrom(files, relevantFile, 0)
    case None => ""
    case Some(k) =>
      var f := files[k];
      if f.headFile == "" && SelectedLines(f, startLine, endLine) == "" then ""
      else
        var body := if f.headFile == "" then NewSideText(SplitLines(SelectedLines(f, startLine, endLine)))
                    else Join("\n", PySlice(SplitLines(f.headFile), startLine - 1, endLine));
        Fenced(language(f.filename), if dedent && body != "" then dedentText(body) else body)
  }

  /**
   * The excerpt is empty exactly when no file matches, or when the matching
   * file has no new content and nothing is selected from its patch;
   * otherwise it is a fenced code block.
   */
  lemma RelevantLinesShape(endLine: int, files: seq<FileData>, relevantFile: string, startLine: int, dedent: bool,
                           language: string -> string, dedentText: string -> string)
    ensures var r := RelevantLines(endLine, files, relevantFile, startLine, dedent, language, dedentText);
            var m := FirstMatchFrom(files, relevantFile, 0);
            && (m.None? ==> r == "")
            && (m.Some? && files[m.value].headFile != "" ==> r != "")
            && (m.Some? && files[m.value].headFile == "" ==> (r == "" <==> SelectedLines(files[m.value], startLine, endLine) == ""))
            && (r != "" ==> StartsWith(r, "```") && EndsWith(r, "\n```"))
  {
    match FirstMatchFrom(files, relevantFile, 0)
    case None =>
    case Some(k) =>
      var f := files[k];
      var selected := SelectedLines(f, startLine, endLine);
      if !(f.headFile == "" && selected == "") {
        var body := if f.headFile == "" then NewSideText(SplitLines(selected))
                    else Join("\n", PySlice(SplitLines(f.headFile), startLine - 1, endLine));
        var shown := if dedent && body != "" then dedentText(body) else body;
        assert RelevantLines(endLine, files, relevantFile, startLine, dedent, language, dedentText)
            == Fenced(language(f.filename), shown);
        FencedShape(language(f.filename), shown);
      }
  }

  /** A fenced block opens and closes with a fence. */
  lemma FencedShape(language: string, body: string)
    ensures var r := Fenced(language, body);
            r != "" && StartsWith(r, "```") && EndsWith(r, "\n```")
  {
    var r := Fenced(language, body);
    assert r[..3] == "```";
    assert r[|r| - 4..] == "\n```";
  }

  /** The patch fallback handles each line on its own: the text of two runs of lines is the text of each, in order. */
  lemma {:induction false} NewSideTextAppend(a: seq<string>, b: seq<string>)
    ensures NewSideText(a + b) == NewSideText(a) + NewSideText(b)
    decreases |b|
  {
    if b == [] {
      assert a + b == a;
    } else {
      var init := b[..|b| - 1];
      NewSideTextAppend(a, init);
      assert (a + b)[..|a + b| - 1] == a + init;
      assert (a + b)[|a + b| - 1] == b[|b| - 1];
    }
  }

  /** A removed line contributes nothing; any other line contributes its text after the first character. */
  lemma NewSideTextOne(line: string)
    ensures line != [] && line[0] == '-' ==> NewSideText([line]) == ""
    ensures !(line != [] && line[0] == '-') ==> NewSideText([line]) == PySlice(line, 1, |line|) + "\n"
  {
    assert [line][..0] == [];
  }

  /** With new content and a range inside it, the excerpt is exactly those lines, joined by newlines. */
  lemma HeadFileExcerpt(endLine: int, files: seq<FileData>, relevantFile: string, startLine: int,
                        language: string -> string, dedentText: string -> string, k: nat)
    requires k < |files| && Strip(files[k].filename) == relevantFile && files[k].headFile != ""
    requires forall j :: 0 <= j < k ==> Strip(files[j].filename) != relevantFile
    requires 1 <= startLine <= endLine <= |SplitLines(files[k].headFile)|
    ensures RelevantLines(endLine, files, relevantFile, startLine, false, language, dedentText)
              == Fenced(language(files[k].filename), Join("\n", SplitLines(files[k].headFile)[startLine - 1..endLine]))
  {
    assert FirstMatchFrom(files, relevantFile, 0) == Some(k);
  }

  lemma NewSideTextNext(lines: seq<string>, j: nat)
    requires j < |lines|
    ensures NewSideText(lines[..j + 1])
              == NewSideText(lines[..j])
                 + (if lines[j] != [] && lines[j][0] == '-' then "" else PySlice(lines[j], 1, |lines[j]|) + "\n")
  {
    assert lines[..j + 1][..j] == lines[..j];
  }

  /** The fallback's loop over the selected lines. */
  method NewSide(lines: seq<string>) returns (text: string)
    ensures text == NewSideText(lines)
  {
    text := "";
    for j := 0 to |lines|
      invariant text == NewSideText(lines[..j])
    {
      var line := lines[j];
      NewSideTextNext(lines, j);
      if line != [] && line[0] == '-' {
        continue;
      }
      text := text + (PySlice(line, 1, |line|) + "\n");
    }
    assert lines[..|lines|] == lines;
  }

  /** `extract_relevant_lines_str`, with its loop over the files and, in the fallback, over the selected lines. */
  method ExtractRelevantLinesStr(endLine: int, files: seq<FileData>, relevantFile: string, startLine: int,
                                 dedent: bool, language: string -> string, dedentText: string -> string)
    returns (relevantLinesStr: string)
    ensures relevantLinesStr == RelevantLines(endLine, files, relevantFile, startLine, dedent, language, dedentText)
  {
    relevantLinesStr := "";
    var i := 0;
    while i < |files|
      invariant i <= |files|
      invariant FirstMatchFrom(files, relevantFile, 0) == FirstMatchFrom(files, relevantFile, i)
      decreases |files| - i
    {
      var file := files[i];
      if Strip(file.filename) == relevantFile {
        if file.headFile == "" {
          var selected := SelectedLines(file, startLine, endLine);
          if selected == "" {
            return "";
          }
          relevantLinesStr := NewSide(SplitLines(selected));
        } else {
          var fileLines := SplitLines(file.headFile);
          relevantLinesStr := Join("\n", PySlice(fileLines, startLine - 1, endLine));
        }
        if dedent && relevantLinesStr != "" {
          relevantLinesStr := dedentText(relevantLinesStr);
        }
        relevantLinesStr := Fenced(language(file.filename), relevantLinesStr);
        return;
      }
      i := i + 1;
    }
  }

  // ----- format_todo_item(s) -----

  /** `git_provider.get_line_link(file, start, end)`; the empty text stands for no link. */
  type LinkFn = (string, Value, Value) -> string

  /** `d.get(key, '').strip()`: a present value that is not text raises `AttributeError`. */
  function TextField(d: Dict, key: string): (r: Result<string>)
    ensures key !in d ==> r == Ok("")
    ensures key in d && d[key].Str? ==> r == Ok(Strip(d[key].s))
    ensures r.Err? <==> key in d && !d[key].Str?
  {
    match GetOr(d, key, Str(""))
    case Str(s) => Ok(Strip(s))
    case _ => Err(AttributeError)
  }

  /** "{file} [{line}]", linked when there is a link. */
  function TodoRef(file: string, line: Value, link: string, gfm: bool, repr: Value -> string): string
  {
    var fileRef := file + " [" + PyStr(line, repr) + "]";
    if link == "" then fileRef
    else if gfm then "<a href='" + link + "'>" + fileRef + "</a>"
    else "[" + fileRef + "](" + link + ")"
  }

  /**
   * `format_todo_item`: the file reference, followed by ": " and the
   * stripped content when there is content. An item that is not a
   * dictionary, a missing provider, or a file or content that is not text
   * raises `AttributeError`.
   */
  function FormatTodoItem(item: Value, provider: Option<LinkFn>, gfm: bool, repr: Value -> string): (r: Result<string>)
    ensures r.Err? ==> r.error == AttributeError
    ensures r.Ok? <==>
              && item.Dict? && provider.Some?
              && TextField(item.fields, "relevant_file").Ok?
              && (!Truthy(GetOr(item.fields, "content", Str(""))) || GetOr(item.fields, "content", Str("")).Str?)
  {
    if !item.Dict? || provider.None? then Err(AttributeError)
    else
      match TextField(item.fields, "relevant_file")
      case Err(e) => Err(e)
      case Ok(file) =>
        var line := GetOr(item.fields, "line_number", Str(""));
        var content := GetOr(item.fields, "content", Str(""));
        var ref := TodoRef(file, line, provider.value(file, line, line), gfm, repr);
        if !Truthy(content) then Ok(ref)
        else if content.Str? then Ok(ref + ": " + Strip(content.s))
        else Err(AttributeError)
  }

  /**
   * A to-do item that is not a dictionary, or a missing provider, raises;
   * otherwise the item renders as its file reference, followed by ": " and
   * the stripped content exactly when the content is not empty, and raises
   * when the content is neither empty nor text.
   */
  lemma FormatTodoItemShape(item: Value, provider: Option<LinkFn>, gfm: bool, repr: Value -> string)
    ensures var r := FormatTodoItem(item, provider, gfm, repr);
            && (!item.Dict? || provider.None? ==> r == Err(AttributeError))
            && (item.Dict? && provider.Some? && TextField(item.fields, "relevant_file").Ok? ==>
                  var file := TextField(item.fields, "relevant_file").value;
                  var line := GetOr(item.fields, "line_number", Str(""));
                  var content := GetOr(item.fields, "content", Str(""));
                  var link := provider.value(file, line, line);
                  && (r.Ok? <==> (!Truthy(content) || content.Str?))
                  && (r.Ok? ==> StartsWith(r.value, TodoRef(file, line, link, gfm, repr)))
                  && (r.Ok? && Truthy(content) ==> EndsWith(r.value, ": " + Strip(content.s)))
                  && (r.Ok? && !Truthy(content) ==> r.value == TodoRef(file, line, link, gfm, repr)))
  {
    if item.Dict? && provider.Some? && TextField(item.fields, "relevant_file").Ok? {
      var file := TextField(item.fields, "relevant_file").value;
      var line := GetOr(item.fields, "line_number", Str(""));
      var content := GetOr(item.fields, "content", Str(""));
      var ref := TodoRef(file, line, provider.value(file, line, line), gfm, repr);
      if Truthy(content) && content.Str? {
        var tail := ": " + Strip(content.s);
        assert FormatTodoItem(item, provider, gfm, repr) == Ok(ref + ": " + Strip(content.s));
        assert ref + ": " + Strip(content.s) == ref + tail;
        AppendPrefix(ref, tail);
        AppendSuffix(ref, tail);
      } else if !Truthy(content) {
        assert FormatTodoItem(item, provider, gfm, repr) == Ok(ref);
        assert ref[..|ref|] == ref;
      }
    }
  }

  const MaxTodoItems := 5

  /** One list entry per item, `<li>` elements with GitHub markdown, "- " lines otherwise; the first error is raised. */
  function TodoEntries(items: seq<Value>, provider: Option<LinkFn>, gfm: bool, repr: Value -> string): Result<string>
  {
    if items == [] then Ok("")
    else
      match TodoEntries(items[..|items| - 1], provider, gfm, repr)
      case Err(e) => Err(e)
      case Ok(prev) =>
        match FormatTodoItem(items[|items| - 1], provider, gfm, repr)
        case Err(e) => Err(e)
        case Ok(x) => Ok(prev + (if gfm then "<li>" + x + "</li>\n" else "- " + x + "\n"))
  }

  /** The items a list shows: its first five. */
  function Shown(items: seq<Value>): (r: seq<Value>)
    ensures |r| <= MaxTodoItems && |r| <= |items| && r == items[..|r|]
    ensures |items| <= MaxTodoItems ==> r == items
  {
    if |items| > MaxTodoItems then items[..MaxTodoItems] else items
  }

  /** `format_todo_items`: a list (at most five entries shown) or a single item. */
  function TodoItemsText(value: Value, provider: Option<LinkFn>, gfm: bool, repr: Value -> string): (r: Result<string>)
    ensures gfm && value.List? && r.Ok? ==> StartsWith(r.value, "<ul>\n") && EndsWith(r.value, "</ul>\n")
    ensures !value.List? ==> (r.Ok? <==> FormatTodoItem(value, provider, gfm, repr).Ok?)
  {
    if value.List? then
      match TodoEntries(Shown(value.items), provider, gfm, repr)
      case Err(e) => Err(e)
      case Ok(entries) => Ok(if gfm then "<ul>\n" + entries + "</ul>\n" else entries)
    else
      match FormatTodoItem(value, provider, gfm, repr)
      case Err(e) => Err(e)
      case Ok(x) => Ok(if gfm then "<p>" + x + "</p>\n" else "- " + x + "\n")
  }

  /** Only the first five items of a list matter: lists that agree on them render alike, whatever follows. */
  lemma TodoItemsFirstFive(items: seq<Value>, more: seq<Value>, provider: Option<LinkFn>, gfm: bool,
                           repr: Value -> string)
    requires |items| >= MaxTodoItems
    ensures TodoItemsText(List(items + more), provider, gfm, repr) == TodoItemsText(List(items[..MaxTodoItems]), provider, gfm, repr)
  {
    assert (items + more)[..MaxTodoItems] == items[..MaxTodoItems];
  }

  /** `format_todo_items`, with its loop over the shown items. */
  method FormatTodoItems(value: Value, provider: Option<LinkFn>, gfm: bool, repr: Value -> string)
    returns (r: Result<string>)
    ensures r == TodoItemsText(value, provider, gfm, repr)
  {
    if !value.List? {
      var x := FormatTodoItem(value, provider, gfm, repr);
      if x.Err? {
        return Err(x.error);
      }
      return Ok(if gfm then "<p>" + x.value + "</p>\n" else "- " + x.value + "\n");
    }
    var items := value.items;
    if |items| > MaxTodoItems {
      items := items[..MaxTodoItems];
    }
    var markdownText := "";
    for k := 0 to |items|
      invariant TodoEntries(items[..k], provider, gfm, repr) == Ok(markdownText)
    {
      assert items[..k + 1][..k] == items[..k];
      var x := FormatTodoItem(items[k], provider, gfm, repr);
      if x.Err? {
        assert TodoEntries(items[..k + 1], provider, gfm, repr) == Err(x.error);
        TodoEntriesErrorStays(items, provider, gfm, repr, k + 1);
        assert items[..|items|] == items;
        return Err(x.error);
      }
      markdownText := markdownText + (if gfm then "<li>" + x.value + "</li>\n" else "- " + x.value + "\n");
    }
    assert items[..|items|] == items;
    return Ok(if gfm then "<ul>\n" + markdownText + "</ul>\n" else markdownText);
  }

  /** Once an item raises, the whole list raises that error. */
  lemma {:induction false} TodoEntriesErrorStays(items: seq<Value>, provider: Option<LinkFn>, gfm: bool,
                                                 repr: Value -> string, n: nat)
    requires n <= |items| && TodoEntries(items[..n], provider, gfm, repr).Err?
    ensures TodoEntries(items, provider, gfm, repr) == TodoEntries(items[..n], provider, gfm, repr)
    decreases |items| - n
  {
    if n == |items| {
      assert items[..n] == items;
    } else {
      assert items[..n + 1][..n] == items[..n];
      TodoEntriesErrorStays(items, provider, gfm, repr, n + 1);
    }
  }
}
