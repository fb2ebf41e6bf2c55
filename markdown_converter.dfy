/**
 * The review comment: `convert_to_markdown_v2` renders the review dictionary
 * the model produced, section by section in the dictionary's order, after
 * taking its to-do summary out.
 */
module MarkdownConverter {
  import opened Wrappers
  import opened Text
  import opened PyValues
  import PrTypes
  import Compliance
  import RF = ReviewFormatter

  // ----- the review dictionary -----

  /** The keys of the entries, in order. */
  function KeysOf(entries: seq<(string, Value)>): (r: seq<string>)
    ensures |r| == |entries|
    ensures forall i :: 0 <= i < |entries| ==> r[i] == entries[i].0
  {
    if entries == [] then [] else KeysOf(entries[..|entries| - 1]) + [entries[|entries| - 1].0]
  }

  /** A dictionary holds each key once. */
  predicate DistinctKeys(entries: seq<(string, Value)>)
  {
    forall i, j :: 0 <= i < j < |entries| ==> entries[i].0 != entries[j].0
  }

  /** The value under `key`, if there is one. */
  function Lookup(entries: seq<(string, Value)>, key: string): (r: Option<Value>)
    ensures r.Some? <==> key in KeysOf(entries)
  {
    if entries == [] then None
    else if entries[|entries| - 1].0 == key then Some(entries[|entries| - 1].1)
    else Lookup(entries[..|entries| - 1], key)
  }

  /** The entries without `key`, the others in their order. */
  function Without(entries: seq<(string, Value)>, key: string): seq<(string, Value)>
  {
    if entries == [] then []
    else
      var prev := Without(entries[..|entries| - 1], key);
      if entries[|entries| - 1].0 == key then prev else prev + [entries[|entries| - 1]]
  }

  /** Removing a key keeps every other entry and no entry with that key. */
  lemma {:induction false} WithoutMembers(entries: seq<(string, Value)>, key: string)
    ensures forall e :: e in Without(entries, key) <==> e in entries && e.0 != key
  {
    if entries != [] {
      var init := entries[..|entries| - 1];
      WithoutMembers(init, key);
      assert entries == init + [entries[|entries| - 1]];
    }
  }

  /** The last key of a dictionary occurs nowhere before it. */
  lemma LastKeyFresh(entries: seq<(string, Value)>)
    requires entries != [] && DistinctKeys(entries)
    ensures entries[|entries| - 1].0 !in KeysOf(entries[..|entries| - 1])
  {
    var init := entries[..|entries| - 1];
    forall i | 0 <= i < |init|
      ensures KeysOf(init)[i] != entries[|entries| - 1].0
    {
      assert init[i] == entries[i];
    }
  }

  /** Removing a key that is there removes one entry; removing one that is not changes nothing in length. */
  lemma {:induction false} WithoutLength(entries: seq<(string, Value)>, key: string)
    requires DistinctKeys(entries)
    ensures |Without(entries, key)| == |entries| - (if key in KeysOf(entries) then 1 else 0)
  {
    if entries != [] {
      var init := entries[..|entries| - 1];
      assert DistinctKeys(init);
      WithoutLength(init, key);
      assert KeysOf(entries) == KeysOf(init) + [entries[|entries| - 1].0];
      LastKeyFresh(entries);
    }
  }

  /** Removing a key keeps the keys distinct. */
  lemma {:induction false} WithoutDistinct(entries: seq<(string, Value)>, key: string)
    requires DistinctKeys(entries)
    ensures DistinctKeys(Without(entries, key))
  {
    if entries != [] {
      var init := entries[..|entries| - 1];
      var last := entries[|entries| - 1];
      assert DistinctKeys(init);
      WithoutDistinct(init, key);
      if last.0 != key {
        var w := Without(init, key);
        WithoutMembers(init, key);
        LastKeyFresh(entries);
        forall i | 0 <= i < |w|
          ensures w[i].0 != last.0
        {
          assert w[i] in init;
          var j :| 0 <= j < |init| && init[j] == w[i];
          assert KeysOf(init)[j] == w[i].0;
        }
      }
    }
  }

  /**
   * Removing a key removes exactly its entry: what is left is every other
   * entry, no entry with that key, and one entry fewer when the key was there.
   */
  lemma WithoutSpec(entries: seq<(string, Value)>, key: string)
    requires DistinctKeys(entries)
    ensures key !in KeysOf(Without(entries, key))
    ensures forall e :: e in Without(entries, key) <==> e in entries && e.0 != key
    ensures |Without(entries, key)| == |entries| - (if key in KeysOf(entries) then 1 else 0)
    ensures DistinctKeys(Without(entries, key))
  {
    WithoutMembers(entries, key);
    WithoutLength(entries, key);
    WithoutDistinct(entries, key);
    var w := Without(entries, key);
    forall i | 0 <= i < |w|
      ensures KeysOf(w)[i] != key
    {
      assert w[i] in w;
    }
  }

  /** The review dictionary, whose entries keep their insertion order and whose `pop` removes one in place. */
  class ReviewDict {
    var entries: seq<(string, Value)>

    ghost predicate Valid()
      reads this
    {
      DistinctKeys(entries)
    }

    constructor (entries: seq<(string, Value)>)
      requires DistinctKeys(entries)
      ensures Valid() && this.entries == entries
    {
      this.entries := entries;
    }

    /** `dict.pop(key, default)`: the value under `key`, now removed, or `default` when there is none. */
    method Pop(key: string, default: Value) returns (v: Value)
      requires Valid()
      modifies this
      ensures Valid()
      ensures entries == Without(old(entries), key)
      ensures v == Lookup(old(entries), key).GetOr(default)
    {
      WithoutSpec(entries, key);
      var kept;
      kept, v := TakeOut(entries, key, default);
      entries := kept;
    }
  }

  /** The loop behind `pop`: the entries without `key`, and the value under it or `default`. */
  method TakeOut(entries: seq<(string, Value)>, key: string, default: Value) returns (kept: seq<(string, Value)>, v: Value)
    ensures kept == Without(entries, key)
    ensures v == Lookup(entries, key).GetOr(default)
  {
    kept := [];
    v := default;
    for k := 0 to |entries|
      invariant kept == Without(entries[..k], key)
      invariant v == Lookup(entries[..k], key).GetOr(default)
    {
      assert entries[..k + 1][..k] == entries[..k];
      if entries[k].0 == key {
        v := entries[k].1;
      } else {
        kept := kept + [entries[k]];
      }
    }
    assert entries[..|entries|] == entries;
  }

  // ----- one section -----

  /** Values the loop skips: `None`, `''`, `{}` and `[]`. */
  predicate Empty(v: Value)
  {
    v == Null || v == Str("") || v == Dict(map[]) || v == List([])
  }

  /** The keys rendered even when their value is empty. */
  const AlwaysShown: set<string> := {"can_be_split", "key_issues_to_review"}

  /** `str.capitalize()`: the first character in upper case, the rest in lower case. */
  function Capitalize(s: string): (r: string)
    ensures |r| == |s|
    ensures Lower(r) == Lower(s)
  {
    if s == [] then [] else [UpperChar(s[0])] + Lower(s[1..])
  }

  /** The key as a heading: underscores become spaces, then it is capitalised. */
  function KeyNice(key: string): (r: string)
    ensures |r| == |key|
    ensures forall i :: 0 <= i < |r| ==> r[i] != '_'
    ensures forall i :: 0 <= i < |r| ==> LowerChar(r[i]) == LowerChar(if key[i] == '_' then ' ' else key[i])
  {
    var spaced := seq(|key|, i requires 0 <= i < |key| => if key[i] == '_' then ' ' else key[i]);
    var r := Capitalize(spaced);
    assert forall i :: 0 <= i < |r| ==> LowerChar(r[i]) == Lower(r)[i];
    r
  }

  /** The emoji of each section heading. */
  const Emojis: map<string, string> := map[
    "Can be split" := "\U{1F500}",
    "Key issues to review" := "\U{26A1}",
    "Recommended focus areas for review" := "\U{26A1}",
    "Score" := "\U{1F3C5}",
    "Relevant tests" := "\U{1F9EA}",
    "Focused PR" := "\U{2728}",
    "Relevant ticket" := "\U{1F3AB}",
    "Security concerns" := "\U{1F512}",
    "Todo sections" := "\U{1F4DD}",
    "Insights from user's answers" := "\U{1F4DD}",
    "Code feedback" := "\U{1F916}",
    "Estimated effort to review [1-5]" := "\U{23F1}\U{FE0F}",
    "Contribution time cost estimate" := "\U{23F3}",
    "Ticket compliance check" := "\U{1F3AB}"
  ]

  /** `emojis.get(key_nice, "")`. */
  function EmojiOf(nice: string): (r: string)
    ensures nice !in Emojis ==> r == ""
    ensures nice in Emojis ==> r == Emojis[nice]
  {
    if nice in Emojis then Emojis[nice] else ""
  }

  /** Which renderer a heading goes to. */
  datatype Section = Effort | Tests | Ticket | Contribution | Security | Todo | Split | Issues | Other

  /** The dispatch: the first test that the heading passes, in the order the loop makes them. */
  function Dispatch(nice: string): Section
  {
    var low := Lower(nice);
    if Contains(nice, "Estimated effort to review") then Effort
    else if Contains(low, "relevant tests") then Tests
    else if Contains(low, "ticket compliance check") then Ticket
    else if Contains(low, "contribution time cost estimate") then Contribution
    else if Contains(low, "security concerns") then Security
    else if Contains(low, "todo sections") then Todo
    else if Contains(low, "can be split") then Split
    else if Contains(low, "key issues to review") then Issues
    else Other
  }

  /** What rendering needs besides the review: the issue context, the key order of dictionaries and `repr`. */
  datatype Options = Options(ctx: RF.IssueContext, keyOrder: Dict -> seq<string>, repr: Value -> string)

  /** Appends a section's text, or passes its error on. */
  function Append(md: string, section: Result<string>): (r: Result<string>)
    ensures r.Ok? <==> section.Ok?
    ensures r.Ok? ==> r.value == md + section.value
  {
    match section
    case Err(e) => Err(e)
    case Ok(t) => Ok(md + t)
  }

  /** A section without a renderer of its own: the heading and the value as text. */
  function PlainRow(emoji: string, nice: string, value: Value, o: Options): string
  {
    RF.Block(o.ctx.gfm, emoji, nice, ": " + PyStr(value, o.repr), RF.Close(o.ctx.gfm))
  }

  /** The text a section other than the ticket one appends; it may raise. */
  function SectionText(section: Section, emoji: string, nice: string, value: Value, o: Options): Result<string>
    requires section != Ticket
  {
    var gfm := o.ctx.gfm;
    match section
    case Effort => Ok(RF.ProcessEstimatedEffort(value, emoji, gfm, RF.BlueBar, RF.WhiteBar, o.repr))
    case Tests => Ok(RF.ProcessRelevantTests(value, emoji, gfm, o.repr))
    case Contribution => RF.ProcessContributionTime(value, emoji, gfm)
    case Security => RF.ProcessSecurityConcerns(value, emoji, gfm, o.repr)
    case Todo => RF.ProcessTodoSections(value, emoji, gfm, RF.DoneMark, o.ctx.provider, o.repr)
    case Split => Ok(if gfm then "<tr><td>" + RF.CanBeSplit(emoji, value, o.keyOrder, o.repr) + "</td></tr>\n" else "")
    case Issues => RF.KeyIssues(value, emoji, o.ctx, o.repr)
    case Other => Ok(PlainRow(emoji, nice, value, o))
  }

  /**
   * One turn of the loop: the markdown after the entry `key: value`. The
   * ticket section rewrites the markdown so far; the others append to it.
   */
  function Step(md: string, key: string, value: Value, o: Options): (r: Result<string>)
  {
    if !Rendered(key, value) then Ok(md)
    else
      var nice := KeyNice(key);
      var emoji := EmojiOf(nice);
      if Dispatch(nice) == Ticket then Ok(Compliance.TicketMarkdown(emoji, md, value, o.ctx.gfm))
      else Append(md, SectionText(Dispatch(nice), emoji, nice, value, o))
  }

  /** Every section only appends: what was written before stays a prefix. */
  lemma StepExtends(md: string, key: string, value: Value, o: Options)
    ensures Step(md, key, value, o).Ok? ==> StartsWith(Step(md, key, value, o).value, md)
  {
    var nice := KeyNice(key);
    if Rendered(key, value) && Dispatch(nice) != Ticket {
      var t := SectionText(Dispatch(nice), EmojiOf(nice), nice, value, o);
      if t.Ok? {
        AppendPrefix(md, t.value);
      }
    }
  }

  /** An empty value is skipped unless its key is one of the two always shown. */
  lemma EmptySkipped(md: string, key: string, value: Value, o: Options)
    requires !Rendered(key, value)
    ensures Step(md, key, value, o) == Ok(md)
  {
  }

  /** Without GitHub markdown the split section adds nothing, whatever its value. */
  lemma SplitNeedsGfm(md: string, key: string, value: Value, o: Options)
    requires !o.ctx.gfm && Dispatch(KeyNice(key)) == Split
    ensures Step(md, key, value, o) == Ok(md)
  {
    AppendNothing(md);
  }

  /** A turn of the loop: the markdown after one entry. */
  type StepFn = (string, string, Value) -> Result<string>

  /** `Step` with its options fixed. */
  function Stepper(o: Options): StepFn
  {
    (md, key, value) => Step(md, key, value, o)
  }

  /** The loop over the entries, from the markdown written before it. */
  function Sections(md: string, entries: seq<(string, Value)>, step: StepFn): Result<string>
  {
    if entries == [] then Ok(md)
    else
      match Sections(md, entries[..|entries| - 1], step)
      case Err(e) => Err(e)
      case Ok(m) => step(m, entries[|entries| - 1].0, entries[|entries| - 1].1)
  }

  /** A step that only appends: each turn keeps what was written before it. */
  ghost predicate Extends(step: StepFn)
  {
    forall md, key, value :: step(md, key, value).Ok? ==> StartsWith(step(md, key, value).value, md)
  }

  /** The loop's turns only append. */
  lemma StepperExtends(o: Options)
    ensures Extends(Stepper(o))
  {
    forall md, key, value
      ensures Stepper(o)(md, key, value).Ok? ==> StartsWith(Stepper(o)(md, key, value).value, md)
    {
      StepExtends(md, key, value, o);
    }
  }

  /** The sections extend what was written before them. */
  lemma {:induction false} SectionsExtend(md: string, entries: seq<(string, Value)>, step: StepFn)
    requires Extends(step)
    ensures Sections(md, entries, step).Ok? ==> StartsWith(Sections(md, entries, step).value, md)
  {
    if entries != [] {
      var init := entries[..|entries| - 1];
      var last := entries[|entries| - 1];
      SectionsExtend(md, init, step);
      var prev := Sections(md, init, step);
      var r := Sections(md, entries, step);
      if prev.Ok? && r.Ok? {
        assert StartsWith(r.value, prev.value);
        assert r.value[..|prev.value|] == prev.value;
        assert r.value[..|md|] == prev.value[..|md|];
      }
    }
  }

  /** Once a section raises, the rest of the loop does not run and the error is raised. */
  lemma {:induction false} SectionsErrorStays(md: string, entries: seq<(string, Value)>, step: StepFn, n: nat)
    requires n <= |entries| && Sections(md, entries[..n], step).Err?
    ensures Sections(md, entries, step) == Sections(md, entries[..n], step)
    decreases |entries| - n
  {
    if n == |entries| {
      assert entries[..n] == entries;
    } else {
      assert entries[..n + 1][..n] == entries[..n];
      SectionsErrorStays(md, entries, step, n + 1);
    }
  }

  // ----- the whole comment -----

  const SearchMark := "\U{1F50D}"
  const PreviousMark := "\U{23EE}\U{FE0F}"
  const IntroText := "Here are some key observations to aid the review process:\n\n"

  /** The guide's heading; an incremental review also names the commits it covers. */
  function Header(incrementalReview: Value, repr: Value -> string): (r: string)
    ensures !Truthy(incrementalReview) ==> StartsWith(r, PrTypes.ReviewHeaderRegular)
    ensures Truthy(incrementalReview) ==> StartsWith(r, PrTypes.ReviewHeaderIncremental)
  {
    if !Truthy(incrementalReview) then
      var r := PrTypes.ReviewHeaderRegular + (" " + SearchMark + "\n\n");
      assert r[..|PrTypes.ReviewHeaderRegular|] == PrTypes.ReviewHeaderRegular;
      r
    else
      var r := PrTypes.ReviewHeaderIncremental
               + (" " + SearchMark + "\n\n" + PreviousMark + " Review for commits since previous PR-Agent review "
                  + PyStr(incrementalReview, repr) + ".\n\n");
      assert r[..|PrTypes.ReviewHeaderIncremental|] == PrTypes.ReviewHeaderIncremental;
      r
  }

  /** What precedes the sections: the heading, the optional introduction and the table's opening. */
  function Preamble(incrementalReview: Value, enableIntroText: bool, o: Options): string
  {
    var header := Header(incrementalReview, o.repr);
    var intro := if enableIntroText then header + IntroText else header;
    if o.ctx.gfm then intro + "<table>\n" else intro
  }

  /** The preamble, the sections and, with GitHub markdown, the table's end. */
  function Document(preamble: string, entries: seq<(string, Value)>, o: Options): Result<string>
  {
    match Sections(preamble, entries, Stepper(o))
    case Err(e) => Err(e)
    case Ok(md) => Ok(if o.ctx.gfm then md + "</table>\n" else md)
  }

  /**
   * `convert_to_markdown_v2` on the review's entries (`None` when there is
   * no review): nothing for a missing or empty review, otherwise the
   * preamble, every entry but the to-do summary, and the table's end.
   */
  function ConvertToMarkdown(review: Option<seq<(string, Value)>>, incrementalReview: Value, enableIntroText: bool,
                             o: Options): (r: Result<string>)
    ensures review.None? || review.value == [] ==> r == Ok("")
  {
    if review.None? || review.value == [] then Ok("")
    else Document(Preamble(incrementalReview, enableIntroText, o), Without(review.value, "todo_summary"), o)
  }

  /**
   * A rendered review starts with the preamble, so with the guide's heading
   * and, with GitHub markdown, the table's opening; with GitHub markdown it
   * ends by closing the table.
   */
  lemma ConvertShape(review: Option<seq<(string, Value)>>, incrementalReview: Value, enableIntroText: bool, o: Options)
    requires review.Some? && review.value != []
    requires ConvertToMarkdown(review, incrementalReview, enableIntroText, o).Ok?
    ensures var r := ConvertToMarkdown(review, incrementalReview, enableIntroText, o).value;
            StartsWith(r, Preamble(incrementalReview, enableIntroText, o))
            && (o.ctx.gfm ==> EndsWith(r, "</table>\n"))
  {
    var pre := Preamble(incrementalReview, enableIntroText, o);
    var es := Without(review.value, "todo_summary");
    StepperExtends(o);
    SectionsExtend(pre, es, Stepper(o));
    var md := Sections(pre, es, Stepper(o)).value;
    if o.ctx.gfm {
      var r := md + "</table>\n";
      assert r[..|pre|] == md[..|pre|];
      assert r[|md|..] == "</table>\n";
    }
  }

  /** The to-do summary is never rendered as a section of its own. */
  lemma TodoSummaryNotRendered(review: seq<(string, Value)>)
    requires DistinctKeys(review)
    ensures "todo_summary" !in KeysOf(Without(review, "todo_summary"))
  {
    WithoutSpec(review, "todo_summary");
  }

  /** Whether the loop renders the entry at all. */
  predicate Rendered(key: string, value: Value)
  {
    !(Empty(value) && Lower(key) !in AlwaysShown)
  }

  /** The ticket entry: the compliance section, built by its own loop. */
  method RenderTicket(md: string, key: string, value: Value, o: Options) returns (r: Result<string>)
    requires Rendered(key, value) && Dispatch(KeyNice(key)) == Ticket
    ensures r == Step(md, key, value, o)
  {
    var t := Compliance.TicketMarkdownLogic(EmojiOf(KeyNice(key)), md, value, o.ctx.gfm);
    return Ok(t);
  }

  /** The split entry: a row around the themes with GitHub markdown, nothing otherwise. */
  method RenderSplit(md: string, key: string, value: Value, o: Options) returns (r: Result<string>)
    requires Rendered(key, value) && Dispatch(KeyNice(key)) == Split
    ensures r == Step(md, key, value, o)
  {
    var emoji := EmojiOf(KeyNice(key));
    var markdownText := md;
    if o.ctx.gfm {
      markdownText := markdownText + "<tr><td>";
      var split := RF.ProcessCanBeSplit(emoji, value, o.keyOrder, o.repr);
      markdownText := markdownText + split;
      markdownText := markdownText + "</td></tr>\n";
      AppendThree(md, "<tr><td>", split, "</td></tr>\n");
    } else {
      AppendNothing(md);
    }
    return Ok(markdownText);
  }

  /** The key-issues entry, built by its own loop. */
  method RenderKeyIssues(md: string, key: string, value: Value, o: Options) returns (r: Result<string>)
    requires Rendered(key, value) && Dispatch(KeyNice(key)) == Issues
    ensures r == Step(md, key, value, o)
  {
    var issues := RF.ProcessKeyIssues(value, EmojiOf(KeyNice(key)), o.ctx, o.repr);
    if issues.Err? {
      return Err(issues.error);
    }
    return Ok(md + issues.value);
  }

  /** One entry, as the loop body renders it, calling the renderers that loop. */
  method RenderEntry(md: string, key: string, value: Value, o: Options) returns (r: Result<string>)
    ensures r == Step(md, key, value, o)
  {
    if !Rendered(key, value) {
      return Ok(md);
    }
    var keyNice := KeyNice(key);
    match Dispatch(keyNice) {
      case Ticket => r := RenderTicket(md, key, value, o);
      case Split => r := RenderSplit(md, key, value, o);
      case Issues => r := RenderKeyIssues(md, key, value, o);
      case _ => r := Step(md, key, value, o);
    }
  }

  /** The loop over the review's entries; the first section that raises ends it. */
  method RenderSections(preamble: string, entries: seq<(string, Value)>, o: Options) returns (r: Result<string>)
    ensures r == Sections(preamble, entries, Stepper(o))
  {
    ghost var step := Stepper(o);
    var markdownText := preamble;
    for k := 0 to |entries|
      invariant Sections(preamble, entries[..k], step) == Ok(markdownText)
    {
      assert entries[..k + 1][..k] == entries[..k];
      var next := RenderEntry(markdownText, entries[k].0, entries[k].1, o);
      assert step(markdownText, entries[k].0, entries[k].1) == next;
      if next.Err? {
        SectionsErrorStays(preamble, entries, step, k + 1);
        return Err(next.error);
      }
      markdownText := next.value;
    }
    assert entries[..|entries|] == entries;
    return Ok(markdownText);
  }

  /**
   * `convert_to_markdown_v2`: pops the to-do summary out of the review, in
   * place, then renders the rest in order.
   */
  method ConvertToMarkdownV2(review: ReviewDict?, incrementalReview: Value, enableIntroText: bool, o: Options)
    returns (r: Result<string>)
    requires review != null ==> review.Valid()
    modifies review
    ensures review != null ==> review.Valid()
    ensures r == ConvertToMarkdown(if review == null then None else Some(old(review.entries)), incrementalReview,
                                   enableIntroText, o)
    ensures review != null && old(review.entries) != [] ==> review.entries == Without(old(review.entries), "todo_summary")
    ensures review != null && old(review.entries) == [] ==> review.entries == []
  {
    if review == null || review.entries == [] {
      return Ok("");
    }
    var markdownText := RenderPreamble(incrementalReview, enableIntroText, o);
    ghost var entries := review.entries;
    var todoSummary := review.Pop("todo_summary", Str(""));
    r := RenderDocument(markdownText, review.entries, o);
    assert r == ConvertToMarkdown(Some(entries), incrementalReview, enableIntroText, o);
  }

  /** The header, the optional introduction and, with GitHub markdown, the table's start. */
  method RenderPreamble(incrementalReview: Value, enableIntroText: bool, o: Options) returns (markdownText: string)
    ensures markdownText == Preamble(incrementalReview, enableIntroText, o)
  {
    markdownText := Header(incrementalReview, o.repr);
    if enableIntroText {
      markdownText := markdownText + IntroText;
    }
    if o.ctx.gfm {
      markdownText := markdownText + "<table>\n";
    }
  }

  /** The loop over the entries and the table's end, after the preamble. */
  method RenderDocument(preamble: string, entries: seq<(string, Value)>, o: Options) returns (r: Result<string>)
    ensures r == Document(preamble, entries, o)
  {
    var sections := RenderSections(preamble, entries, o);
    if sections.Err? {
      return Err(sections.error);
    }
    var markdownText := sections.value;
    if o.ctx.gfm {
      markdownText := markdownText + "</table>\n";
    }
    return Ok(markdownText);
  }
}
