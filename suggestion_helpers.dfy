/**
 * The helpers of the code-suggestions tool: removing the dual view's line
 * numbers, truncating long code, the score words, the link to the commit a
 * table was made for, the self-review checkbox, and the grouping of the
 * summary table.
 */
module SuggestionHelpers {
  import opened Wrappers
  import opened Text
  import opened PyValues
  import opened Sorting
  import DualView

  // ----- remove_line_numbers -----

  /** The index of the first non-digit of `line` from `i` on, or its length. */
  function FirstNonDigit(line: string, i: nat): (r: nat)
    requires i <= |line|
    ensures i <= r <= |line|
    ensures forall k :: i <= k < r ==> IsDigit(line[k])
    ensures r < |line| ==> !IsDigit(line[r])
    decreases |line| - i
  {
    if i == |line| || !IsDigit(line[i]) then i else FirstNonDigit(line, i + 1)
  }

  /**
   * One line with its number removed: an all-digit line becomes empty; a
   * line that starts with a digit loses its digits and the character after
   * them; blank lines and others stay as they are.
   */
  function StripNumber(line: string): string
  {
    if Strip(line) == [] then line
    else if AllDigits(line) then ""
    else if IsDigit(line[0]) then
      var j := FirstNonDigit(line, 0);
      assert j < |line|;
      line[j + 1..]
    else line
  }

  function StripNumbers(lines: seq<string>): (r: seq<string>)
    ensures |r| == |lines|
    ensures forall i :: 0 <= i < |lines| ==> r[i] == StripNumber(lines[i])
  {
    seq(|lines|, i requires 0 <= i < |lines| => StripNumber(lines[i]))
  }

  /** A patch with the numbers of its numbered lines removed. */
  function Unnumbered(patch: string): string
  {
    Join("\n", StripNumbers(SplitLines(patch)))
  }

  /** `remove_line_numbers`: one output per patch, each line overwritten in place. */
  method RemoveLineNumbers(patchesDiffList: seq<string>) returns (r: seq<string>)
    ensures |r| == |patchesDiffList|
    ensures forall k :: 0 <= k < |r| ==> r[k] == Unnumbered(patchesDiffList[k])
  {
    r := [];
    for k := 0 to |patchesDiffList|
      invariant |r| == k
      invariant forall k' :: 0 <= k' < k ==> r[k'] == Unnumbered(patchesDiffList[k'])
    {
      var patchesDiffLines := SplitLines(patchesDiffList[k]);
      ghost var original := patchesDiffLines;
      for i := 0 to |patchesDiffLines|
        invariant |patchesDiffLines| == |original|
        invariant forall i' :: 0 <= i' < i ==> patchesDiffLines[i'] == StripNumber(original[i'])
        invariant forall i' :: i <= i' < |original| ==> patchesDiffLines[i'] == original[i']
      {
        var line := patchesDiffLines[i];
        if Strip(line) != [] {
          if AllDigits(line) {
            patchesDiffLines := patchesDiffLines[i := ""];
          } else if IsDigit(line[0]) {
            var j := SkipDigits(line);
            patchesDiffLines := patchesDiffLines[i := line[j + 1..]];
          }
        }
      }
      assert patchesDiffLines == StripNumbers(original);
      r := r + [Join("\n", patchesDiffLines)];
    }
  }

  /** The inner scan for the first character that is not a digit. */
  method SkipDigits(line: string) returns (j: nat)
    requires !AllDigits(line)
    ensures j == FirstNonDigit(line, 0) && j < |line|
  {
    j := 0;
    while IsDigit(line[j])
      invariant j < |line| && FirstNonDigit(line, j) == FirstNonDigit(line, 0)
      decreases |line| - j
    {
      j := j + 1;
    }
  }

  /** Removing the number of a line `"{n} {x}"` gives back `x`. */
  lemma NumberedLineRestored(n: nat, x: string)
    ensures StripNumber(NatToString(n) + " " + x) == x
  {
    var d := NatToString(n);
    var line := d + " " + x;
    assert line[|d|] == ' ';
    assert line[0] == d[0];
    assert !AllDigits(line);
    assert FirstNonDigit(line, 0) == |d| by {
      forall k | 0 <= k < |d|
        ensures IsDigit(line[k])
      {
        assert line[k] == d[k];
      }
      FirstNonDigitAt(line, 0, |d|);
    }
    assert IsDigit(line[0]);
    WhitespaceIsSpace(line[0]);
    assert LStripChars(line, Whitespace) == line;
    RStripCharsSpec(line, Whitespace);
    assert Strip(line) != [];
    assert line[|d| + 1..] == x;
  }

  lemma {:induction false} FirstNonDigitAt(line: string, i: nat, j: nat)
    requires i <= j < |line| && !IsDigit(line[j])
    requires forall k :: i <= k < j ==> IsDigit(line[k])
    ensures FirstNonDigit(line, i) == j
    decreases j - i
  {
    if i < j {
      FirstNonDigitAt(line, i + 1, j);
    }
  }

  /**
   * The numbered lines of the dual view's new hunk, with their line breaks
   * taken off, lose their numbers again.
   */
  lemma NewHunkNumbersRemoved(lines: seq<string>, start: nat)
    ensures forall i :: 0 <= i < |lines| ==>
              var l := DualView.Numbered(lines, start)[i];
              StripNumber(l[..|l| - 1]) == lines[i]
  {
    forall i | 0 <= i < |lines|
      ensures var l := DualView.Numbered(lines, start)[i];
              StripNumber(l[..|l| - 1]) == lines[i]
    {
      var l := DualView.Numbered(lines, start)[i];
      var a := NatToString(start + i) + " " + lines[i];
      assert IntToString(start + i) == NatToString(start + i);
      assert l == a + "\n";
      assert (a + "\n")[..|a|] == a;
      NumberedLineRestored(start + i, lines[i]);
    }
  }

  // ----- truncate_if_needed -----

  /** The characters of a text as one-character texts, as `list += str` appends them. */
  function CharValues(s: string): (r: seq<Value>)
    ensures |r| == |s|
    ensures forall i :: 0 <= i < |s| ==> r[i] == Str([s[i]])
  {
    seq(|s|, i requires 0 <= i < |s| => Str([s[i]]))
  }

  /**
   * `truncate_if_needed`: with a positive limit, improved code longer than
   * the limit is cut to it and followed by a line with the message. A list
   * is cut the same way and extended by the message's characters; `len` of
   * a number, a boolean or `None`, and the slicing of a long dictionary,
   * raise.
   */
  function TruncateIfNeeded(suggestion: Dict, maxLength: int, message: string): (r: Result<Dict>)
    ensures maxLength <= 0 ==> r == Ok(suggestion)
    ensures maxLength > 0 && "improved_code" !in suggestion ==> r == Err(KeyError("improved_code"))
    ensures r.Ok? ==> r.value.Keys == suggestion.Keys
    ensures r.Ok? ==> forall k :: k in suggestion && k != "improved_code" ==> r.value[k] == suggestion[k]
    ensures maxLength > 0 && "improved_code" in suggestion ==>
              var code := suggestion["improved_code"];
              && (code.Str? ==> r == Ok(suggestion["improved_code" :=
                                   if |code.s| > maxLength then Str(code.s[..maxLength] + "\n" + message) else code]))
              && (code.List? ==> r == Ok(suggestion["improved_code" :=
                                    if |code.items| > maxLength then List(code.items[..maxLength] + CharValues("\n" + message))
                                    else code]))
              && (code.Dict? ==> (r.Ok? <==> |code.fields| <= maxLength) && (r.Ok? ==> r.value == suggestion))
              && (code.Int? || code.Bool? || code.Null? ==> r == Err(TypeError))
  {
    if maxLength <= 0 then Ok(suggestion)
    else if "improved_code" !in suggestion then Err(KeyError("improved_code"))
    else
      match suggestion["improved_code"]
      case Str(c) =>
        if |c| <= maxLength then
          assert suggestion["improved_code" := Str(c)] == suggestion;
          Ok(suggestion)
        else Ok(suggestion["improved_code" := Str(c[..maxLength] + "\n" + message)])
      case List(items) =>
        if |items| <= maxLength then
          assert suggestion["improved_code" := List(items)] == suggestion;
          Ok(suggestion)
        else Ok(suggestion["improved_code" := List(items[..maxLength] + CharValues("\n" + message))])
      case Dict(fields) => if |fields| <= maxLength then Ok(suggestion) else Err(TypeError)
      case _ => Err(TypeError)
  }

  /** Truncated text code keeps the first `maxLength` characters and ends with the message. */
  lemma TruncatedText(suggestion: Dict, maxLength: int, message: string)
    requires maxLength > 0 && "improved_code" in suggestion && suggestion["improved_code"].Str?
    requires |suggestion["improved_code"].s| > maxLength
    ensures var code := TruncateIfNeeded(suggestion, maxLength, message).value["improved_code"].s;
            && |code| == maxLength + 1 + |message|
            && code[..maxLength] == suggestion["improved_code"].s[..maxLength]
            && EndsWith(code, "\n" + message)
  {
    var c := suggestion["improved_code"].s;
    var code := c[..maxLength] + "\n" + message;
    assert code[..maxLength] == c[..maxLength];
    assert code[|code| - |"\n" + message|..] == "\n" + message;
  }

  // ----- extract_link -----

  const CommentOpen := "<!--"
  const CommentClose := "-->"

  /** No line break in `s[a..b]`. */
  predicate LineFree(s: string, a: nat, b: nat)
    requires a <= b <= |s|
  {
    forall k :: a <= k < b ==> s[k] != '\n'
  }

  /**
   * `<!--.*?-->` can match from `p` to the "-->" at `q`: the comment opens
   * at `p`, closes at `q` past its opening, and no line break lies between.
   */
  ghost predicate SameLineComment(s: string, p: nat, q: nat)
  {
    && OccursAt(s, CommentOpen, p) && p + 4 <= q && OccursAt(s, CommentClose, q)
    && LineFree(s, p + 4, q)
  }

  /** The comment `re.search` reports: the leftmost start, and from it the nearest close. */
  ghost predicate FirstComment(s: string, p: nat, q: nat)
  {
    && SameLineComment(s, p, q)
    && (forall a: nat, b: nat :: a < p ==> !SameLineComment(s, a, b))
    && (forall b: nat :: b < q ==> !SameLineComment(s, p, b))
  }

  /** The first `-->` at or after `i` with no line break before it, or `None`. */
  function CloseFrom(s: string, i: nat): (r: Option<nat>)
    requires i <= |s|
    ensures r.Some? ==> i <= r.value && OccursAt(s, CommentClose, r.value)
    ensures r.Some? ==> forall k :: i <= k < r.value ==> s[k] != '\n' && !OccursAt(s, CommentClose, k)
    ensures r.None? ==> forall q: nat :: i <= q && OccursAt(s, CommentClose, q) ==> !LineFree(s, i, q)
    decreases |s| - i
  {
    if OccursAt(s, CommentClose, i) then Some(i)
    else if i == |s| || s[i] == '\n' then None
    else CloseFrom(s, i + 1)
  }

  /** `re.search(r"<!--.*?-->", s)` from index `p`: the start and the end of the match. */
  function CommentFrom(s: string, p: nat): (r: Option<(nat, nat)>)
    requires p <= |s|
    ensures r.Some? ==> p <= r.value.0 && r.value.0 + 4 <= r.value.1 && r.value.1 + 3 <= |s|
    ensures r.Some? ==> SameLineComment(s, r.value.0, r.value.1)
    ensures r.Some? ==> forall b: nat :: SameLineComment(s, r.value.0, b) ==> r.value.1 <= b
    ensures r.Some? ==> forall a: nat, b: nat :: p <= a < r.value.0 ==> !SameLineComment(s, a, b)
    ensures r.None? ==> forall a: nat, b: nat :: p <= a ==> !SameLineComment(s, a, b)
    decreases |s| - p
  {
    if p + 4 <= |s| && OccursAt(s, CommentOpen, p) && CloseFrom(s, p + 4).Some? then
      var q := CloseFrom(s, p + 4).value;
      Some((p, q))
    else
      var r := if p == |s| then None else CommentFrom(s, p + 1);
      assert forall b: nat :: !SameLineComment(s, p, b);
      r
  }

  /**
   * `extract_link`: " up to commit " and the stripped text of the first HTML
   * comment on one line, or "" when the text holds none.
   */
  function ExtractLink(s: string): (r: string)
    ensures r == "" <==> forall p: nat, q: nat :: !SameLineComment(s, p, q)
    ensures forall p: nat, q: nat :: FirstComment(s, p, q) ==> r == " up to commit " + Strip(s[p + 4..q])
  {
    match CommentFrom(s, 0)
    case None => ""
    case Some((p, q)) =>
      assert forall p': nat, q': nat :: FirstComment(s, p', q') ==> p' == p && q' == q;
      " up to commit " + Strip(s[p + 4..q])
  }

  /**
   * The link text round trip: a comment written after text holding no '<'
   * gives back its stripped text, when that text has no '-' and no line
   * break.
   */
  lemma ExtractLinkOfComment(pre: string, text: string, post: string)
    requires Free(pre, '<') && Free(text, '-') && Free(text, '\n')
    ensures ExtractLink(pre + CommentOpen + text + CommentClose + post) == " up to commit " + Strip(text)
  {
    var s := pre + CommentOpen + text + CommentClose + post;
    var p := |pre|;
    var q := p + 4 + |text|;
    assert s[p..p + 4] == CommentOpen;
    assert s[q..q + 3] == CommentClose;
    assert s[p + 4..q] == text;
    forall k | p + 4 <= k < q
      ensures s[k] != '\n' && !OccursAt(s, CommentClose, k)
    {
      assert s[k] == text[k - p - 4];
      NotAtUnlessFirst(s, CommentClose, k);
    }
    CloseFromAt(s, p + 4, q);
    forall k | 0 <= k < p
      ensures !OccursAt(s, CommentOpen, k)
    {
      assert s[k] == pre[k];
      NotAtUnlessFirst(s, CommentOpen, k);
    }
    CommentFromAt(s, 0, p, q);
  }

  /** The commit marker `<!-- sha -->` gives " up to commit sha". */
  lemma ExtractLinkOfCommitMarker(pre: string, sha: string, post: string)
    requires Free(pre, '<') && Free(sha, '-') && Free(sha, '\n')
    requires sha != [] && !IsSpace(sha[0]) && !IsSpace(sha[|sha| - 1])
    ensures ExtractLink(pre + CommentOpen + " " + sha + " " + CommentClose + post) == " up to commit " + sha
  {
    var text := " " + sha + " ";
    assert pre + CommentOpen + " " + sha + " " + CommentClose + post == pre + CommentOpen + text + CommentClose + post;
    ExtractLinkOfComment(pre, text, post);
    StripPadded(sha);
  }

  /** A pattern occurs only where its first character does. */
  lemma NotAtUnlessFirst(s: string, pat: string, k: nat)
    requires pat != [] && k < |s| && s[k] != pat[0]
    ensures !OccursAt(s, pat, k)
  {
    if k + |pat| <= |s| {
      assert s[k..k + |pat|][0] == s[k];
    }
  }

  lemma {:induction false} CloseFromAt(s: string, i: nat, q: nat)
    requires i <= q && q + 3 <= |s| && OccursAt(s, CommentClose, q)
    requires forall k :: i <= k < q ==> s[k] != '\n' && !OccursAt(s, CommentClose, k)
    ensures CloseFrom(s, i) == Some(q)
    decreases q - i
  {
    if i < q {
      CloseFromAt(s, i + 1, q);
    }
  }

  lemma {:induction false} CommentFromAt(s: string, i: nat, p: nat, q: nat)
    requires i <= p && p + 4 <= |s| && OccursAt(s, CommentOpen, p) && CloseFrom(s, p + 4) == Some(q)
    requires forall k :: i <= k < p ==> !OccursAt(s, CommentOpen, k)
    ensures CommentFrom(s, i) == Some((p, q))
    decreases p - i
  {
    if i < p {
      CommentFromAt(s, i + 1, p, q);
    }
  }

  /** Stripping one space from each side of a text that does not start or end with whitespace. */
  lemma StripPadded(x: string)
    requires x != [] && !IsSpace(x[0]) && !IsSpace(x[|x| - 1])
    ensures Strip(" " + x + " ") == x
  {
    WhitespaceIsSpace(x[0]);
    WhitespaceIsSpace(x[|x| - 1]);
    var t := " " + x + " ";
    assert t[1..] == x + " ";
    assert LStripChars(x + " ", Whitespace) == x + " ";
    assert LStripChars(t, Whitespace) == x + " ";
    assert (x + " ")[..|x|] == x;
    assert RStripChars(x, Whitespace) == x;
  }

  /** With no comment in the text there is no link. */
  lemma NoCommentNoLink(s: string)
    requires Free(s, '<')
    ensures ExtractLink(s) == ""
  {
    NoOpenNoComment(s, 0);
  }

  lemma {:induction false} NoOpenNoComment(s: string, p: nat)
    requires p <= |s| && Free(s, '<')
    ensures CommentFrom(s, p) == None
    decreases |s| - p
  {
    if p + 4 <= |s| {
      assert s[p..p + 4][0] == s[p];
    }
    if p < |s| {
      NoOpenNoComment(s, p + 1);
    }
  }

  // ----- get_score_str -----

  datatype ScoreWord = Low | Medium | High
  {
    function Text(): string
    {
      match this
      case Low => "Low"
      case Medium => "Medium"
      case High => "High"
    }

    function Rank(): nat
    {
      match this
      case Low => 0
      case Medium => 1
      case High => 2
    }
  }

  /** `get_score_str` with the two thresholds (9 and 7 unless configured). */
  function GetScoreStr(score: int, thHigh: int, thMedium: int): (r: ScoreWord)
    ensures r == High <==> score >= thHigh
    ensures r == Medium <==> thMedium <= score < thHigh
    ensures r == Low <==> score < thHigh && score < thMedium
  {
    if score >= thHigh then High
    else if score >= thMedium then Medium
    else Low
  }

  /** A higher score never gets a lower word. */
  lemma ScoreStrMonotone(a: int, b: int, thHigh: int, thMedium: int)
    requires a <= b
    ensures GetScoreStr(a, thHigh, thMedium).Rank() <= GetScoreStr(b, thHigh, thMedium).Rank()
  {
  }

  // ----- add_self_review_text -----

  const ApproveMarker := " <!-- approve pr self-review -->"
  const FoldMarker := " <!-- fold suggestions self-review -->"
  const ApproveAndFoldMarker := " <!-- approve and fold suggestions self-review -->"

  /** `add_self_review_text`: the checkbox line, then the marker of the configured action. */
  function AddSelfReviewText(prBody: string, text: string, approve: bool, fold: bool): (r: string)
    ensures StartsWith(r, prBody + "\n\n- [ ]  " + text)
    ensures approve && !fold ==> EndsWith(r, ApproveMarker)
    ensures fold && !approve ==> EndsWith(r, FoldMarker)
    ensures approve == fold ==> EndsWith(r, ApproveAndFoldMarker)
    ensures |r| == |prBody + "\n\n- [ ]  " + text| +
              (if approve && !fold then |ApproveMarker| else if fold && !approve then |FoldMarker| else |ApproveAndFoldMarker|)
  {
    var body := prBody + "\n\n- [ ]  " + text;
    var marker := if approve && !fold then ApproveMarker
                  else if fold && !approve then FoldMarker
                  else ApproveAndFoldMarker;
    assert (body + marker)[..|body|] == body;
    assert (body + marker)[|body + marker| - |marker|..] == marker;
    body + marker
  }

  // ----- generate_summarized_suggestions -----

  /** A suggestion as the summary table reads it. */
  datatype Summary = Summary(labelText: string, score: int, suggestion: Dict)

  /**
   * A suggestion of the model's answer read as the summary table reads it:
   * indexing a non-mapping, a missing "label" or "score", a label that is
   * not text and a score that is not a number are the errors that make the
   * table empty. A boolean score counts as 0 or 1.
   */
  function SummaryOf(v: Value): (r: Result<Summary>)
    ensures r.Ok? <==>
              && v.Dict? && "label" in v.fields && v.fields["label"].Str?
              && "score" in v.fields && (v.fields["score"].Int? || v.fields["score"].Bool?)
    ensures r.Ok? ==> r.value.labelText == v.fields["label"].s && r.value.suggestion == v.fields
    ensures r.Ok? && v.fields["score"].Int? ==> r.value.score == v.fields["score"].i
    ensures r.Ok? && v.fields["score"].Bool? ==> r.value.score == (if v.fields["score"].b then 1 else 0)
  {
    if !v.Dict? then Err(TypeError)
    else if "label" !in v.fields then Err(KeyError("label"))
    else if !v.fields["label"].Str? then Err(AttributeError)
    else if "score" !in v.fields then Err(KeyError("score"))
    else
      match v.fields["score"]
      case Int(i) => Ok(Summary(v.fields["label"].s, i, v.fields))
      case Bool(b) => Ok(Summary(v.fields["label"].s, if b then 1 else 0, v.fields))
      case _ => Err(TypeError)
  }

  /** All suggestions read as summaries, or the first error. */
  function SummariesOf(items: seq<Value>): (r: Result<seq<Summary>>)
    ensures r.Ok? <==> forall i :: 0 <= i < |items| ==> SummaryOf(items[i]).Ok?
    ensures r.Ok? ==> |r.value| == |items| && forall i :: 0 <= i < |items| ==> r.value[i] == SummaryOf(items[i]).value
  {
    if items == [] then Ok([])
    else
      match SummaryOf(items[0])
      case Err(e) => Err(e)
      case Ok(s) =>
        match SummariesOf(items[1..])
        case Err(e) => Err(e)
        case Ok(rest) =>
          assert forall i :: 1 <= i < |items| ==> items[i] == items[1..][i - 1];
          Ok([s] + rest)
  }

  /** The label the table groups by: stripped of whitespace, then of single and of double quotes. */
  function GroupLabel(labelText: string): string
  {
    StripChars(StripChars(Strip(labelText), {'\''}), {'"'})
  }

  datatype Group = Group(labelText: string, members: seq<Summary>)

  /** The members of `ss` with group label `labelText`, in order. */
  function Members(ss: seq<Summary>, labelText: string): (r: seq<Summary>)
    ensures |r| <= |ss|
    ensures forall m :: m in r ==> m in ss && GroupLabel(m.labelText) == labelText
  {
    if ss == [] then []
    else
      var last := ss[|ss| - 1];
      Members(ss[..|ss| - 1], labelText) + (if GroupLabel(last.labelText) == labelText then [last] else [])
  }

  /** The group labels of `ss`, each once, in the order they first appear. */
  function DistinctLabels(ss: seq<Summary>): seq<string>
  {
    if ss == [] then []
    else
      var d := DistinctLabels(ss[..|ss| - 1]);
      var l := GroupLabel(ss[|ss| - 1].labelText);
      if l in d then d else d + [l]
  }

  /** One group per distinct label, in the order labels first appear, holding that label's members in order. */
  function Grouped(ss: seq<Summary>): (r: seq<Group>)
    ensures |r| == |DistinctLabels(ss)|
  {
    var d := DistinctLabels(ss);
    seq(|d|, i requires 0 <= i < |d| => Group(d[i], Members(ss, d[i])))
  }

  /** Appending a suggestion appends its label if it is new. */
  lemma LabelsStep(ss: seq<Summary>, s: Summary)
    ensures var l := GroupLabel(s.labelText);
            DistinctLabels(ss + [s]) == DistinctLabels(ss) + (if l in DistinctLabels(ss) then [] else [l])
  {
    assert (ss + [s])[..|ss|] == ss;
  }

  /** Appending a suggestion appends it to its label's members. */
  lemma MembersStep(ss: seq<Summary>, s: Summary, m: string)
    ensures Members(ss + [s], m) == Members(ss, m) + (if m == GroupLabel(s.labelText) then [s] else [])
  {
    assert (ss + [s])[..|ss|] == ss;
  }

  /** The position of the group with label `l`, or `|groups|` when there is none. */
  method FindGroup(groups: seq<Group>, l: string) returns (j: nat)
    ensures j <= |groups|
    ensures j < |groups| ==> groups[j].labelText == l
    ensures j == |groups| ==> forall i :: 0 <= i < |groups| ==> groups[i].labelText != l
  {
    j := 0;
    while j < |groups| && groups[j].labelText != l
      invariant j <= |groups|
      invariant forall i :: 0 <= i < j ==> groups[i].labelText != l
    {
      j := j + 1;
    }
  }

  /** A suggestion with a new label opens a group after the others. */
  lemma GroupedNewLabel(ss: seq<Summary>, s: Summary)
    requires GroupLabel(s.labelText) !in DistinctLabels(ss)
    ensures Grouped(ss + [s]) == Grouped(ss) + [Group(GroupLabel(s.labelText), [s])]
  {
    var l := GroupLabel(s.labelText);
    var d := DistinctLabels(ss);
    LabelsStep(ss, s);
    var a := Grouped(ss + [s]);
    var b := Grouped(ss) + [Group(l, [s])];
    forall i | 0 <= i < |a|
      ensures a[i] == b[i]
    {
      MembersStep(ss, s, DistinctLabels(ss + [s])[i]);
      if i == |d| {
        NoMembers(ss, l);
      }
    }
  }

  /** A suggestion with a known label joins that label's group, at its end. */
  lemma GroupedKnownLabel(ss: seq<Summary>, s: Summary, j: nat)
    requires j < |DistinctLabels(ss)| && DistinctLabels(ss)[j] == GroupLabel(s.labelText)
    ensures Grouped(ss + [s]) == Grouped(ss)[j := Group(GroupLabel(s.labelText), Grouped(ss)[j].members + [s])]
  {
    var d := DistinctLabels(ss);
    LabelsStep(ss, s);
    DistinctLabelsShape(ss);
    var a := Grouped(ss + [s]);
    var b := Grouped(ss)[j := Group(GroupLabel(s.labelText), Grouped(ss)[j].members + [s])];
    forall i | 0 <= i < |a|
      ensures a[i] == b[i]
    {
      MembersStep(ss, s, d[i]);
    }
  }

  lemma NoMembers(ss: seq<Summary>, labelText: string)
    requires labelText !in DistinctLabels(ss)
    ensures Members(ss, labelText) == []
  {
    DistinctLabelsShape(ss);
    if Members(ss, labelText) != [] {
      assert Members(ss, labelText)[0] in Members(ss, labelText);
    }
  }

  /** The grouping loop: a new label opens a group, a known one gets the suggestion appended. */
  method GroupByLabel(ss: seq<Summary>) returns (groups: seq<Group>)
    ensures groups == Grouped(ss)
  {
    groups := [];
    for n := 0 to |ss|
      invariant groups == Grouped(ss[..n])
    {
      var s := ss[n];
      var l := GroupLabel(s.labelText);
      assert ss[..n + 1] == ss[..n] + [s];
      var j := FindGroup(groups, l);
      if j == |groups| {
        ghost var d := DistinctLabels(ss[..n]);
        assert l !in d by {
          forall i | 0 <= i < |d|
            ensures d[i] != l
          {
            assert groups[i].labelText == d[i];
          }
        }
        GroupedNewLabel(ss[..n], s);
        groups := groups + [Group(l, [s])];
      } else {
        GroupedKnownLabel(ss[..n], s, j);
        groups := groups[j := Group(l, groups[j].members + [s])];
      }
    }
    assert ss[..|ss|] == ss;
  }

  /**
   * The labels are distinct, and they are exactly the group labels of the
   * suggestions; each label has at least one member.
   */
  lemma {:induction false} DistinctLabelsShape(ss: seq<Summary>)
    ensures forall i, j :: 0 <= i < j < |DistinctLabels(ss)| ==> DistinctLabels(ss)[i] != DistinctLabels(ss)[j]
    ensures forall l :: l in DistinctLabels(ss) <==> exists s :: s in ss && GroupLabel(s.labelText) == l
    ensures forall l :: l in DistinctLabels(ss) ==> Members(ss, l) != []
  {
    if ss != [] {
      var init := ss[..|ss| - 1];
      var s := ss[|ss| - 1];
      assert ss == init + [s];
      DistinctLabelsShape(init);
      LabelsStep(init, s);
      forall l | l in DistinctLabels(ss)
        ensures Members(ss, l) != []
      {
        MembersStep(init, s, l);
      }
      forall l
        ensures l in DistinctLabels(ss) <==> exists x :: x in ss && GroupLabel(x.labelText) == l
      {
        if exists x :: x in ss && GroupLabel(x.labelText) == l {
          var x :| x in ss && GroupLabel(x.labelText) == l;
          if x != s {
            assert x in init;
          }
        }
      }
    }
  }

  /** The largest score of a group's members (a group is never empty). */
  function MaxScore(members: seq<Summary>): int
  {
    if members == [] then 0
    else if |members| == 1 then members[0].score
    else
      var m := MaxScore(members[..|members| - 1]);
      if members[|members| - 1].score > m then members[|members| - 1].score else m
  }

  function GroupKey(g: Group): int { MaxScore(g.members) }

  function SummaryKey(s: Summary): int { s.score }

  /** Each group's members sorted by score, descending. */
  function SortedMembers(groups: seq<Group>): (r: seq<Group>)
    ensures |r| == |groups|
  {
    seq(|groups|, i requires 0 <= i < |groups| => Group(groups[i].labelText, SortByKey(groups[i].members, SummaryKey)))
  }

  /** The table's layout: groups by highest score, descending, and members by score, descending. */
  function SummaryTable(ss: seq<Summary>): seq<Group>
  {
    SortedMembers(SortByKey(Grouped(ss), GroupKey))
  }

  const SummaryHeading := "## PR Code Suggestions ✨\n\n"
  const NoSuggestionsText := "No suggestions found to improve this PR."
  const AutoIntro := "Explore these optional code suggestions:\n\n"

  /** What the summary comes to before its rows are rendered; `Failed` is the empty text an error gives. */
  datatype SummaryLayout = NoSuggestions(body: string) | Table(intro: string, groups: seq<Group>) | Failed

  /**
   * `generate_summarized_suggestions` up to the rendering of the rows: the
   * fixed body for no suggestions, the empty text when a suggestion cannot
   * be read, else the heading and the grouped, ordered suggestions.
   */
  function SummarizedLayout(items: seq<Value>, isAutoCommand: bool): (r: SummaryLayout)
    ensures items == [] <==> r.NoSuggestions?
    ensures r.NoSuggestions? ==> r.body == SummaryHeading + NoSuggestionsText
    ensures r.Failed? <==> exists i :: 0 <= i < |items| && SummaryOf(items[i]).Err?
    ensures r.Table? ==> StartsWith(r.intro, SummaryHeading) && (isAutoCommand <==> |r.intro| > |SummaryHeading|)
    ensures r.Table? ==> SummariesOf(items).Ok? && r.groups == SummaryTable(SummariesOf(items).value)
  {
    if |items| == 0 then NoSuggestions(SummaryHeading + NoSuggestionsText)
    else
      match SummariesOf(items)
      case Err(_) => Failed
      case Ok(ss) =>
        var intro := SummaryHeading + (if isAutoCommand then AutoIntro else "");
        assert intro[..|SummaryHeading|] == SummaryHeading;
        Table(intro, SummaryTable(ss))
  }

  /** `f` applied to each element of `a`. */
  function Mapped<T, U>(a: seq<T>, f: T -> U): (r: seq<U>)
    ensures |r| == |a| && forall i :: 0 <= i < |a| ==> r[i] == f(a[i])
  {
    seq(|a|, i requires 0 <= i < |a| => f(a[i]))
  }

  /** Taking the element at `k` out of `b` takes one copy of it out of the multiset. */
  lemma RemoveAt<T>(b: seq<T>, k: nat)
    requires k < |b|
    ensures multiset(b[..k] + b[k + 1..]) == multiset(b) - multiset{b[k]}
  {
    assert b == b[..k] + [b[k]] + b[k + 1..];
  }

  /** Taking the element at `k` out of `b` takes its image out of the image's multiset. */
  lemma MappedRemoveAt<T, U>(b: seq<T>, k: nat, f: T -> U)
    requires k < |b|
    ensures multiset(Mapped(b, f)) == multiset(Mapped(b[..k] + b[k + 1..], f)) + multiset{f(b[k])}
  {
    var m := Mapped(b, f);
    assert Mapped(b[..k] + b[k + 1..], f) == m[..k] + m[k + 1..];
    RemoveAt(m, k);
  }

  /** Reordering a sequence reorders its image under `f` alike. */
  lemma {:induction false} MappedPermute<T, U>(a: seq<T>, b: seq<T>, f: T -> U)
    requires multiset(a) == multiset(b)
    ensures multiset(Mapped(a, f)) == multiset(Mapped(b, f))
    decreases |a|
  {
    if a != [] {
      var n := |a| - 1;
      assert a[n] in multiset(b);
      var k :| 0 <= k < |b| && b[k] == a[n];
      RemoveAt(b, k);
      RemoveAt(a, n);
      assert a[..n] + a[n + 1..] == a[..n];
      MappedPermute(a[..n], b[..k] + b[k + 1..], f);
      MappedRemoveAt(a, n, f);
      MappedRemoveAt(b, k, f);
    }
  }

  /** The labels of a table's groups, in order. */
  function Labels(gs: seq<Group>): (r: seq<string>)
    ensures |r| == |gs| && forall i :: 0 <= i < |gs| ==> r[i] == gs[i].labelText
  {
    Mapped(gs, LabelOf)
  }

  function LabelOf(g: Group): string { g.labelText }

  /**
   * The table's groups are ordered by their highest score and their
   * members by score, both descending; its labels are the distinct labels,
   * and the members of each group are all the suggestions with its label.
   */
  lemma SummaryTableOrdered(ss: seq<Summary>)
    ensures DescendingBy(SummaryTable(ss), GroupKey)
    ensures |SummaryTable(ss)| == |DistinctLabels(ss)|
    ensures forall i :: 0 <= i < |SummaryTable(ss)| ==>
              && SummaryTable(ss)[i].labelText in DistinctLabels(ss)
              && DescendingBy(SummaryTable(ss)[i].members, SummaryKey)
              && multiset(SummaryTable(ss)[i].members) == multiset(Members(ss, SummaryTable(ss)[i].labelText))
    ensures multiset(Labels(SummaryTable(ss))) == multiset(DistinctLabels(ss))
  {
    var groups := Grouped(ss);
    SortByKeySpec(groups, GroupKey);
    var sorted := SortByKey(groups, GroupKey);
    var r := SortedMembers(sorted);
    forall i | 0 <= i < |r|
      ensures r[i].labelText in DistinctLabels(ss)
      ensures DescendingBy(r[i].members, SummaryKey)
      ensures multiset(r[i].members) == multiset(Members(ss, r[i].labelText))
      ensures GroupKey(r[i]) == GroupKey(sorted[i])
    {
      SortByKeySpec(sorted[i].members, SummaryKey);
      assert sorted[i] in multiset(groups);
      var k :| 0 <= k < |groups| && groups[k] == sorted[i];
      SameMax(sorted[i].members, r[i].members);
    }
    MappedPermute(sorted, groups, LabelOf);
    assert Labels(r) == Labels(sorted);
    assert Labels(groups) == DistinctLabels(ss);
  }

  /** The largest score does not depend on the order of the members. */
  lemma SameMax(a: seq<Summary>, b: seq<Summary>)
    requires multiset(a) == multiset(b)
    ensures MaxScore(a) == MaxScore(b)
  {
    MaxScoreIs(a);
    MaxScoreIs(b);
    assert |a| == |multiset(a)| == |multiset(b)| == |b|;
    if a != [] {
      var i :| 0 <= i < |a| && a[i].score == MaxScore(a);
      var j :| 0 <= j < |b| && b[j].score == MaxScore(b);
      assert a[i] in multiset(b);
      assert b[j] in multiset(a);
      var i' :| 0 <= i' < |b| && b[i'] == a[i];
      var j' :| 0 <= j' < |a| && a[j'] == b[j];
    }
  }

  /** `MaxScore` is the largest score of a non-empty group. */
  lemma {:induction false} MaxScoreIs(ms: seq<Summary>)
    ensures ms != [] ==> (exists i :: 0 <= i < |ms| && ms[i].score == MaxScore(ms))
    ensures forall i :: 0 <= i < |ms| ==> ms[i].score <= MaxScore(ms)
  {
    if |ms| == 1 {
      assert ms[0].score == MaxScore(ms);
    } else if |ms| > 1 {
      var init := ms[..|ms| - 1];
      MaxScoreIs(init);
      var i :| 0 <= i < |init| && init[i].score == MaxScore(init);
      assert ms[i] == init[i];
      forall k | 0 <= k < |ms|
        ensures ms[k].score <= MaxScore(ms)
      {
        if k < |init| {
          assert ms[k] == init[k];
        }
      }
    }
  }
}
