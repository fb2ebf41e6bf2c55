/**
 * The code-suggestions tool on parsed model output: the screening of the
 * suggestions, the selection for dual publishing, and the inline comments
 * it publishes.
 */
module CodeSuggestions {
  import opened Wrappers
  import opened Text
  import opened PyValues
  import SuggestionHelpers
  import GithubComments

  // ----- _prepare_pr_code_suggestions -----

  const SummaryKey := "one_sentence_summary"
  const ImprovedKey := "improved_code"
  const ExistingKey := "existing_code"
  const PossibleIssue := "possible issue"

  /** The keys every kept suggestion must have. */
  predicate HasNeededKeys(d: Dict)
  {
    SummaryKey in d && "label" in d && "relevant_file" in d
  }

  /**
   * The focus-on-problems relabelling: a label holding "critical" in any
   * case becomes "possible issue"; `.lower()` on a label that is not text
   * raises.
   */
  function Relabelled(d: Dict, focusOnly: bool): (r: Result<Dict>)
    requires "label" in d
    ensures !focusOnly ==> r == Ok(d)
    ensures r.Err? <==> focusOnly && !d["label"].Str?
    ensures r.Ok? ==> r.value.Keys == d.Keys && forall k :: k in d && k != "label" ==> r.value[k] == d[k]
    ensures r.Ok? && focusOnly ==>
              (r.value["label"] == Str(PossibleIssue) <==> Contains(Lower(d["label"].s), "critical") || d["label"] == Str(PossibleIssue))
  {
    if !focusOnly then Ok(d)
    else match d["label"]
      case Str(l) =>
        if Contains(Lower(l), "critical") then Ok(d["label" := Str(PossibleIssue)])
        else Ok(d)
      case _ => Err(AttributeError)
  }

  /** `'const' in c and 'instead' in c and 'let' in c`. */
  function ConstInsteadLet(content: Value): (r: Result<bool>)
    ensures r.Err? <==> !(content.Str? || content.List? || content.Dict?)
    ensures content.Str? ==>
              r == Ok(Contains(content.s, "const") && Contains(content.s, "instead") && Contains(content.s, "let"))
  {
    match PyIn("const", content)
    case Err(e) => Err(e)
    case Ok(false) => Ok(false)
    case Ok(true) =>
      match PyIn("instead", content)
      case Err(e) => Err(e)
      case Ok(false) => Ok(false)
      case Ok(true) => PyIn("let", content)
  }

  /**
   * One pass of the screening loop: the kept (relabelled, truncated)
   * suggestion, or `None` when it is skipped, an exception included.
   * `seen` holds the summaries of the suggestions kept so far.
   */
  function Screened(item: Value, seen: seq<Value>, focusOnly: bool, maxLength: int, message: string): (r: Option<Dict>)
    ensures r.Some? <==>
              && item.Dict? && HasNeededKeys(item.fields)
              && (focusOnly ==> item.fields["label"].Str?)
              && item.fields[SummaryKey] !in seen
              && "suggestion_content" in item.fields && ConstInsteadLet(item.fields["suggestion_content"]) == Ok(false)
              && ExistingKey in item.fields && ImprovedKey in item.fields
              && SuggestionHelpers.TruncateIfNeeded(item.fields, maxLength, message).Ok?
    ensures r.Some? ==>
              && HasNeededKeys(r.value) && ExistingKey in r.value && ImprovedKey in r.value
              && r.value.Keys == item.fields.Keys
              && r.value[SummaryKey] == item.fields[SummaryKey]
              && (forall k :: k in item.fields && k != "label" && k != ImprovedKey ==> r.value[k] == item.fields[k])
              && r.value[ImprovedKey] == SuggestionHelpers.TruncateIfNeeded(item.fields, maxLength, message).value[ImprovedKey]
              && r.value["label"] == Relabelled(item.fields, focusOnly).value["label"]
  {
    if !item.Dict? || !HasNeededKeys(item.fields) then None
    else
      var d := item.fields;
      match Relabelled(d, focusOnly)
      case Err(_) => None
      case Ok(d1) =>
        if d1[SummaryKey] in seen || "suggestion_content" !in d1 then None
        else if ConstInsteadLet(d1["suggestion_content"]) != Ok(false) then None
        else if ExistingKey !in d1 || ImprovedKey !in d1 then None
        else
          TruncateCommutes(d, d1, maxLength, message);
          match SuggestionHelpers.TruncateIfNeeded(d1, maxLength, message)
          case Err(_) => None
          case Ok(d2) => Some(d2)
  }

  /** Relabelling and truncating touch different keys, so truncation sees the same code either way. */
  lemma TruncateCommutes(d: Dict, d1: Dict, maxLength: int, message: string)
    requires d1.Keys == d.Keys && ImprovedKey in d && d1[ImprovedKey] == d[ImprovedKey]
    requires forall k :: k in d && k != "label" ==> d1[k] == d[k]
    ensures SuggestionHelpers.TruncateIfNeeded(d1, maxLength, message).Ok?
              == SuggestionHelpers.TruncateIfNeeded(d, maxLength, message).Ok?
    ensures SuggestionHelpers.TruncateIfNeeded(d1, maxLength, message).Ok? ==>
              SuggestionHelpers.TruncateIfNeeded(d1, maxLength, message).value[ImprovedKey]
                == SuggestionHelpers.TruncateIfNeeded(d, maxLength, message).value[ImprovedKey]
  {
  }

  /** The loop's two lists: the kept suggestions and their summaries. */
  datatype Kept = Kept(list: seq<Dict>, seen: seq<Value>)

  function KeptOf(items: seq<Value>, focusOnly: bool, maxLength: int, message: string): Kept
  {
    if items == [] then Kept([], [])
    else
      var k := KeptOf(items[..|items| - 1], focusOnly, maxLength, message);
      match Screened(items[|items| - 1], k.seen, focusOnly, maxLength, message)
      case None => k
      case Some(d) => Kept(k.list + [d], k.seen + [d[SummaryKey]])
  }

  function DictValues(ds: seq<Dict>): (r: seq<Value>)
    ensures |r| == |ds|
    ensures forall i :: 0 <= i < |ds| ==> r[i] == Dict(ds[i])
  {
    seq(|ds|, i requires 0 <= i < |ds| => Dict(ds[i]))
  }

  /**
   * What the screening produces from parsed output: a bare list is wrapped
   * as `{'code_suggestions': list}`; the suggestions are replaced by the
   * kept ones. A text iterates as its characters and a dictionary as its
   * keys, which are texts and all skipped (`TextItemsDropped`).
   */
  function Prepared(data: Value, focusOnly: bool, maxLength: int, message: string): (r: Result<Dict>)
  {
    if !(data.List? || data.Dict?) then Err(TypeError)
    else
      var d := if data.List? then map["code_suggestions" := data] else data.fields;
      if "code_suggestions" !in d then Err(KeyError("code_suggestions"))
      else
        var items := match d["code_suggestions"]
          case List(xs) => Some(xs)
          case Str(s) => Some(SuggestionHelpers.CharValues(s))
          case Dict(_) => Some([])
          case _ => None;
        if items.None? then Err(TypeError)
        else Ok(d["code_suggestions" := List(DictValues(KeptOf(items.value, focusOnly, maxLength, message).list))])
  }

  /** The screening loop over the suggestions, skipping those that fail. */
  method ScreenSuggestions(items: seq<Value>, focusOnly: bool, maxLength: int, message: string)
    returns (suggestionList: seq<Dict>, oneSentenceSummaryList: seq<Value>)
    ensures Kept(suggestionList, oneSentenceSummaryList) == KeptOf(items, focusOnly, maxLength, message)
  {
    suggestionList := [];
    oneSentenceSummaryList := [];
    for i := 0 to |items|
      invariant Kept(suggestionList, oneSentenceSummaryList) == KeptOf(items[..i], focusOnly, maxLength, message)
    {
      assert items[..i + 1][..i] == items[..i];
      var kept := ScreenOne(items[i], oneSentenceSummaryList, focusOnly, maxLength, message);
      if kept.Some? {
        oneSentenceSummaryList := oneSentenceSummaryList + [kept.value[SummaryKey]];
        suggestionList := suggestionList + [kept.value];
      }
    }
    assert items[..|items|] == items;
  }

  /** The body of the screening loop, with its check of the needed keys. */
  method ScreenOne(item: Value, seen: seq<Value>, focusOnly: bool, maxLength: int, message: string)
    returns (kept: Option<Dict>)
    ensures kept == Screened(item, seen, focusOnly, maxLength, message)
  {
    if !item.Dict? {
      return None;
    }
    var suggestion := item.fields;
    var neededKeys := [SummaryKey, "label", "relevant_file"];
    var isValidKeys := true;
    for k := 0 to |neededKeys|
      invariant isValidKeys <==> forall j :: 0 <= j < k ==> neededKeys[j] in suggestion
    {
      if neededKeys[k] !in suggestion {
        isValidKeys := false;
        break;
      }
    }
    assert neededKeys[0] == SummaryKey && neededKeys[1] == "label" && neededKeys[2] == "relevant_file";
    if !isValidKeys {
      return None;
    }
    var relabelled := Relabelled(suggestion, focusOnly);
    if relabelled.Err? {
      return None;
    }
    suggestion := relabelled.value;
    if suggestion[SummaryKey] in seen || "suggestion_content" !in suggestion {
      return None;
    }
    if ConstInsteadLet(suggestion["suggestion_content"]) != Ok(false) {
      return None;
    }
    if ExistingKey in suggestion && ImprovedKey in suggestion {
      var truncated := SuggestionHelpers.TruncateIfNeeded(suggestion, maxLength, message);
      if truncated.Err? {
        return None;
      }
      kept := Some(truncated.value);
    } else {
      kept := None;
    }
  }

  /** `_prepare_pr_code_suggestions` on already-parsed output. */
  method PrepareCodeSuggestions(data: Value, focusOnly: bool, maxLength: int, message: string) returns (r: Result<Dict>)
    ensures r == Prepared(data, focusOnly, maxLength, message)
  {
    var d: Dict;
    if data.List? {
      d := map["code_suggestions" := data];
    } else if data.Dict? {
      d := data.fields;
    } else {
      return Err(TypeError);
    }
    if "code_suggestions" !in d {
      return Err(KeyError("code_suggestions"));
    }
    var items: seq<Value>;
    match d["code_suggestions"] {
      case List(xs) => items := xs;
      case Str(s) => items := SuggestionHelpers.CharValues(s);
      case Dict(_) => items := [];
      case _ => return Err(TypeError);
    }
    var suggestionList, _ := ScreenSuggestions(items, focusOnly, maxLength, message);
    r := Ok(d["code_suggestions" := List(DictValues(suggestionList))]);
  }

  // ----- properties of the screening -----

  /**
   * The summaries are those of the kept suggestions, so no two kept
   * suggestions share a summary, and every kept suggestion has the keys
   * the publishing steps read.
   */
  lemma {:induction false} KeptShape(items: seq<Value>, focusOnly: bool, maxLength: int, message: string)
    ensures var k := KeptOf(items, focusOnly, maxLength, message);
            && |k.list| == |k.seen| <= |items|
            && (forall i :: 0 <= i < |k.list| ==> HasNeededKeys(k.list[i]) && ExistingKey in k.list[i] && ImprovedKey in k.list[i])
            && (forall i :: 0 <= i < |k.list| ==> k.seen[i] == k.list[i][SummaryKey])
            && (forall i, j :: 0 <= i < j < |k.seen| ==> k.seen[i] != k.seen[j])
  {
    if items != [] {
      KeptShape(items[..|items| - 1], focusOnly, maxLength, message);
    }
  }

  /** The kept suggestions of a prefix of the input are a prefix of the kept suggestions: input order is kept. */
  lemma {:induction false} KeptInOrder(items: seq<Value>, n: nat, focusOnly: bool, maxLength: int, message: string)
    requires n <= |items|
    ensures var a := KeptOf(items[..n], focusOnly, maxLength, message).list;
            var b := KeptOf(items, focusOnly, maxLength, message).list;
            |a| <= |b| && b[..|a|] == a
    decreases |items| - n
  {
    if n < |items| {
      KeptInOrder(items[..|items| - 1], n, focusOnly, maxLength, message);
      assert items[..|items| - 1][..n] == items[..n];
    } else {
      assert items[..n] == items;
    }
  }

  /** `d` is the dictionary `item` with at most its label and improved code changed. */
  predicate FromItem(d: Dict, item: Value)
  {
    item.Dict? && d.Keys == item.fields.Keys
    && forall key :: key in item.fields && key != "label" && key != ImprovedKey ==> d[key] == item.fields[key]
  }

  /** Each of `ds` comes from one of `items`. */
  predicate FromItems(ds: seq<Dict>, items: seq<Value>)
  {
    forall j :: 0 <= j < |ds| ==> exists i :: 0 <= i < |items| && FromItem(ds[j], items[i])
  }

  /** Every kept suggestion is an input suggestion, relabelled and truncated and otherwise unchanged. */
  lemma {:induction false} KeptFromInput(items: seq<Value>, focusOnly: bool, maxLength: int, message: string)
    ensures FromItems(KeptOf(items, focusOnly, maxLength, message).list, items)
  {
    if items != [] {
      var init := items[..|items| - 1];
      KeptFromInput(init, focusOnly, maxLength, message);
      var k0 := KeptOf(init, focusOnly, maxLength, message).list;
      var k := KeptOf(items, focusOnly, maxLength, message).list;
      forall j | 0 <= j < |k|
        ensures exists i :: 0 <= i < |items| && FromItem(k[j], items[i])
      {
        if j < |k0| {
          var i :| 0 <= i < |init| && FromItem(k0[j], init[i]);
          assert items[i] == init[i] && k[j] == k0[j];
        } else {
          assert FromItem(k[j], items[|items| - 1]);
        }
      }
    }
  }

  /** A suggestion whose summary was already kept is dropped, whatever else it holds. */
  lemma DuplicateDropped(items: seq<Value>, x: Value, focusOnly: bool, maxLength: int, message: string)
    requires x.Dict? && SummaryKey in x.fields
    requires x.fields[SummaryKey] in KeptOf(items, focusOnly, maxLength, message).seen
    ensures KeptOf(items + [x], focusOnly, maxLength, message) == KeptOf(items, focusOnly, maxLength, message)
  {
    assert (items + [x])[..|items|] == items;
  }

  /** Items that are texts are never kept, so iterating a text or a dictionary's keys keeps nothing. */
  lemma {:induction false} TextItemsDropped(items: seq<Value>, focusOnly: bool, maxLength: int, message: string)
    requires forall i :: 0 <= i < |items| ==> items[i].Str?
    ensures KeptOf(items, focusOnly, maxLength, message) == Kept([], [])
  {
    if items != [] {
      TextItemsDropped(items[..|items| - 1], focusOnly, maxLength, message);
    }
  }

  /** Parsed output that is a list is screened as if it had been `{'code_suggestions': list}`. */
  lemma ListWrapped(xs: seq<Value>, focusOnly: bool, maxLength: int, message: string)
    ensures Prepared(List(xs), focusOnly, maxLength, message)
              == Prepared(Dict(map["code_suggestions" := List(xs)]), focusOnly, maxLength, message)
    ensures Prepared(List(xs), focusOnly, maxLength, message).Ok?
    ensures Prepared(List(xs), focusOnly, maxLength, message).value.Keys == {"code_suggestions"}
  {
  }

  /** Screening keeps the other keys of the output and only the suggestions change. */
  lemma PreparedKeepsOtherKeys(data: Dict, focusOnly: bool, maxLength: int, message: string)
    requires "code_suggestions" in data
    ensures var r := Prepared(Dict(data), focusOnly, maxLength, message);
            r.Ok? ==> r.value.Keys == data.Keys && forall k :: k in data && k != "code_suggestions" ==> r.value[k] == data[k]
    ensures var r := Prepared(Dict(data), focusOnly, maxLength, message);
            r.Err? <==> !(data["code_suggestions"].List? || data["code_suggestions"].Str? || data["code_suggestions"].Dict?)
  {
  }

  // ----- dual_publishing -----

  /**
   * One pass of the dual-publishing loop: `Ok(Some(d))` when the suggestion
   * is selected, with an empty existing code replaced by the improved
   * code; an error aborts the whole selection.
   */
  function DualPick(item: Value, threshold: Value): Result<Option<Dict>>
  {
    if !item.Dict? then Err(AttributeError)
    else
      var d := item.fields;
      match PyInt(if "score" in d then d["score"] else Int(0))
      case Err(e) => Err(e)
      case Ok(score) =>
        match PyInt(threshold)
        case Err(e) => Err(e)
        case Ok(th) =>
          if score >= th && Truthy(Get(d, ImprovedKey)) then
            if ExistingKey !in d then Err(KeyError(ExistingKey))
            else if !Truthy(d[ExistingKey]) then Ok(Some(d[ExistingKey := d[ImprovedKey]]))
            else Ok(Some(d))
          else Ok(None)
  }

  /**
   * A selected suggestion scores at least the threshold and has improved
   * code; its existing code is kept when present and is the improved code
   * otherwise. A suggestion below the threshold is passed over.
   */
  lemma DualPickSpec(item: Value, threshold: Value)
    ensures var r := DualPick(item, threshold);
            r.Ok? && r.value.Some? ==>
              && item.Dict? && PyInt(threshold).Ok?
              && PyInt(if "score" in item.fields then item.fields["score"] else Int(0)).Ok?
              && PyInt(if "score" in item.fields then item.fields["score"] else Int(0)).value >= PyInt(threshold).value
              && Truthy(Get(item.fields, ImprovedKey))
              && ExistingKey in item.fields && ExistingKey in r.value.value && Truthy(r.value.value[ExistingKey])
              && (Truthy(item.fields[ExistingKey]) ==> r.value.value == item.fields)
              && (!Truthy(item.fields[ExistingKey]) ==>
                    r.value.value == item.fields[ExistingKey := item.fields[ImprovedKey]])
    ensures (item.Dict? && PyInt(threshold).Ok? && PyInt(Get(item.fields, "score")).Ok?
             && PyInt(Get(item.fields, "score")).value < PyInt(threshold).value) ==> DualPick(item, threshold) == Ok(None)
  {
  }

  /** The selection; `None` when an exception ended the loop and nothing is published. */
  function DualSelected(items: seq<Value>, threshold: Value): Option<seq<Dict>>
  {
    if items == [] then Some([])
    else
      match DualSelected(items[..|items| - 1], threshold)
      case None => None
      case Some(sel) =>
        match DualPick(items[|items| - 1], threshold)
        case Err(_) => None
        case Ok(None) => Some(sel)
        case Ok(Some(d)) => Some(sel + [d])
  }

  /**
   * `dual_publishing`: the suggestions to publish inline, `[]` when none
   * is selected or the selection failed.
   */
  method DualPublishing(items: seq<Value>, threshold: Value) returns (dataAboveThreshold: seq<Dict>)
    ensures dataAboveThreshold == DualSelected(items, threshold).GetOr([])
  {
    dataAboveThreshold := [];
    for i := 0 to |items|
      invariant DualSelected(items[..i], threshold) == Some(dataAboveThreshold)
    {
      var picked := DualPick(items[i], threshold);
      DualSelectedNext(items, i, threshold);
      if picked.Err? {
        DualAbortStays(items, i + 1, threshold);
        return [];
      }
      if picked.value.Some? {
        dataAboveThreshold := dataAboveThreshold + [picked.value.value];
      }
    }
    assert items[..|items|] == items;
  }

  /** The selection one suggestion further. */
  lemma DualSelectedNext(items: seq<Value>, i: nat, threshold: Value)
    requires i < |items|
    ensures DualSelected(items[..i + 1], threshold)
              == match DualSelected(items[..i], threshold)
                 case None => None
                 case Some(sel) =>
                   match DualPick(items[i], threshold)
                   case Err(_) => None
                   case Ok(None) => Some(sel)
                   case Ok(Some(d)) => Some(sel + [d])
  {
    assert items[..i + 1][..i] == items[..i];
  }

  /** Once the selection failed it stays failed. */
  lemma {:induction false} DualAbortStays(items: seq<Value>, n: nat, threshold: Value)
    requires n <= |items| && DualSelected(items[..n], threshold).None?
    ensures DualSelected(items, threshold).None?
    decreases |items| - n
  {
    if n < |items| {
      assert items[..n + 1][..n] == items[..n];
      DualAbortStays(items, n + 1, threshold);
    } else {
      assert items[..n] == items;
    }
  }

  /**
   * Every selected suggestion reached the threshold and has improved code
   * and, after the replacement, existing code; the selection follows the
   * input order.
   */
  lemma {:induction false} DualSelectedShape(items: seq<Value>, threshold: Value)
    requires DualSelected(items, threshold).Some?
    ensures var sel := DualSelected(items, threshold).value;
            && |sel| <= |items|
            && forall j :: 0 <= j < |sel| ==>
                 exists i :: 0 <= i < |items| && DualPick(items[i], threshold) == Ok(Some(sel[j]))
  {
    if items != [] {
      var init := items[..|items| - 1];
      DualSelectedShape(init, threshold);
      var sel0 := DualSelected(init, threshold).value;
      var sel := DualSelected(items, threshold).value;
      forall j | 0 <= j < |sel|
        ensures exists i :: 0 <= i < |items| && DualPick(items[i], threshold) == Ok(Some(sel[j]))
      {
        if j < |sel0| {
          var i :| 0 <= i < |init| && DualPick(init[i], threshold) == Ok(Some(sel0[j]));
          assert items[i] == init[i] && sel[j] == sel0[j];
        } else {
          assert DualPick(items[|items| - 1], threshold) == Ok(Some(sel[j]));
        }
      }
    }
  }

  /** A suggestion that is not a dictionary aborts the selection. */
  lemma DualAbortsOnText(items: seq<Value>, s: string, threshold: Value)
    ensures DualSelected(items + [Str(s)], threshold) == None
  {
    assert (items + [Str(s)])[..|items|] == items;
  }

  // ----- push_inline_code_suggestions -----

  const NoSuggestionsText := "No suggestions found to improve this PR."

  /** A suggestion as handed to the provider for inline publishing. */
  datatype InlineSuggestion = InlineSuggestion(body: string, relevantFile: string, start: int, end: int, original: Dict)

  /** The first line of an inline body: the content and the bracketed label and importance. */
  function Description(content: string, labelText: string, score: Value, repr: Value -> string): string
  {
    "**Suggestion:** " + content + " [" + labelText
      + (if Truthy(score) then ", importance: " + PyStr(score, repr) else "") + "]\n"
  }

  const FenceOpen := "```suggestion\n"
  const FenceClose := "\n```"

  function InlineBody(content: string, labelText: string, score: Value, code: string, repr: Value -> string): (r: string)
    ensures StartsWith(r, Description(content, labelText, score, repr))
    ensures EndsWith(r, FenceOpen + code + FenceClose)
  {
    var desc := Description(content, labelText, score, repr);
    var r := desc + FenceOpen + code + FenceClose;
    assert r[..|desc|] == desc;
    assert r[|r| - |FenceOpen + code + FenceClose|..] == FenceOpen + code + FenceClose;
    r
  }

  /** The fields a suggestion must have as text for its inline comment. */
  predicate InlineReady(d: Dict)
  {
    && "relevant_file" in d && d["relevant_file"].Str?
    && "relevant_lines_start" in d && PyInt(d["relevant_lines_start"]).Ok?
    && "relevant_lines_end" in d && PyInt(d["relevant_lines_end"]).Ok?
    && "suggestion_content" in d && d["suggestion_content"].Str?
    && ImprovedKey in d && d[ImprovedKey].Str?
    && "label" in d && d["label"].Str?
  }

  /**
   * One pass of the inline loop: the comment for one suggestion, or `None`
   * when reading its fields raised. `dedent` stands for `dedent_code`, which
   * reads the file from the provider.
   */
  function Inline(item: Value, dedent: (string, int, string) -> string, repr: Value -> string): Option<InlineSuggestion>
  {
    if !item.Dict? || !InlineReady(item.fields) then None
    else
      var d := item.fields;
      var relevantFile := Strip(d["relevant_file"].s);
      var start := PyInt(d["relevant_lines_start"]).value;
      var end := PyInt(d["relevant_lines_end"]).value;
      var content := RStrip(d["suggestion_content"].s);
      var code := RStrip(d[ImprovedKey].s);
      var labelText := Strip(d["label"].s);
      var newCode := if code != [] then dedent(relevantFile, start, code) else code;
      Some(InlineSuggestion(InlineBody(content, labelText, Get(d, "score"), newCode, repr), relevantFile, start, end, d))
  }

  /**
   * A suggestion gets an inline comment exactly when its fields can be
   * read; the comment carries the suggestion, its stripped file name, its
   * line range, and a body that opens with the description line.
   */
  lemma InlineSpec(item: Value, dedent: (string, int, string) -> string, repr: Value -> string)
    ensures var r := Inline(item, dedent, repr);
            r.Some? <==> item.Dict? && InlineReady(item.fields)
    ensures var r := Inline(item, dedent, repr);
            r.Some? ==>
                && r.value.original == item.fields
                && r.value.relevantFile == Strip(item.fields["relevant_file"].s)
                && r.value.start == PyInt(item.fields["relevant_lines_start"]).value
                && r.value.end == PyInt(item.fields["relevant_lines_end"]).value
                && StartsWith(r.value.body, Description(RStrip(item.fields["suggestion_content"].s),
                                                        Strip(item.fields["label"].s), Get(item.fields, "score"), repr))
  {
  }

  function Inlines(items: seq<Value>, dedent: (string, int, string) -> string, repr: Value -> string)
    : (r: seq<InlineSuggestion>)
    ensures |r| <= |items|
  {
    if items == [] then []
    else
      var prev := Inlines(items[..|items| - 1], dedent, repr);
      match Inline(items[|items| - 1], dedent, repr)
      case None => prev
      case Some(c) => prev + [c]
  }

  /** The loop that builds the inline comments, skipping the suggestions whose fields cannot be read. */
  method InlineComments(items: seq<Value>, dedent: (string, int, string) -> string, repr: Value -> string)
    returns (codeSuggestions: seq<InlineSuggestion>)
    ensures codeSuggestions == Inlines(items, dedent, repr)
  {
    codeSuggestions := [];
    for i := 0 to |items|
      invariant codeSuggestions == Inlines(items[..i], dedent, repr)
    {
      var c := Inline(items[i], dedent, repr);
      InlinesNext(items, i, dedent, repr);
      if c.Some? {
        codeSuggestions := codeSuggestions + [c.value];
      }
    }
    assert items[..|items|] == items;
  }

  /** The comments one suggestion further. */
  lemma InlinesNext(items: seq<Value>, i: nat, dedent: (string, int, string) -> string, repr: Value -> string)
    requires i < |items|
    ensures Inlines(items[..i + 1], dedent, repr)
              == match Inline(items[i], dedent, repr)
                 case None => Inlines(items[..i], dedent, repr)
                 case Some(c) => Inlines(items[..i], dedent, repr) + [c]
  {
    assert items[..i + 1][..i] == items[..i];
  }

  /** What gets published: the "no suggestions" note, or the provider calls made, each with a batch of comments. */
  datatype PushOutcome = Note(text: string) | Published(calls: seq<seq<InlineSuggestion>>)

  function Singletons(cs: seq<InlineSuggestion>): (r: seq<seq<InlineSuggestion>>)
    ensures |r| == |cs|
    ensures forall i :: 0 <= i < |cs| ==> r[i] == [cs[i]]
  {
    seq(|cs|, i requires 0 <= i < |cs| => [cs[i]])
  }

  lemma SingletonsNext(cs: seq<InlineSuggestion>, i: nat)
    requires i < |cs|
    ensures Singletons(cs[..i + 1]) == Singletons(cs[..i]) + [[cs[i]]]
  {
  }

  function Pushed(items: seq<Value>, dedent: (string, int, string) -> string, repr: Value -> string,
                  accepts: seq<InlineSuggestion> -> bool): PushOutcome
  {
    if items == [] then Note(NoSuggestionsText)
    else
      var cs := Inlines(items, dedent, repr);
      if accepts(cs) then Published([cs]) else Published([cs] + Singletons(cs))
  }

  /**
   * `push_inline_code_suggestions`: one batch call; when the provider
   * refuses the batch, one call per comment. `accepts` is the provider's
   * answer to a call.
   */
  method PushInlineCodeSuggestions(items: seq<Value>, dedent: (string, int, string) -> string, repr: Value -> string,
                                   accepts: seq<InlineSuggestion> -> bool) returns (outcome: PushOutcome)
    ensures outcome == Pushed(items, dedent, repr, accepts)
  {
    if |items| == 0 {
      return Note(NoSuggestionsText);
    }
    var codeSuggestions := InlineComments(items, dedent, repr);
    var calls := [codeSuggestions];
    if !accepts(codeSuggestions) {
      for i := 0 to |codeSuggestions|
        invariant calls == [codeSuggestions] + Singletons(codeSuggestions[..i])
      {
        SingletonsNext(codeSuggestions, i);
        calls := calls + [[codeSuggestions[i]]];
      }
      assert codeSuggestions[..|codeSuggestions|] == codeSuggestions;
    }
    outcome := Published(calls);
  }

  // ----- properties of inline publishing -----

  /** Every suggestion with its fields in place gets its comment, in order. */
  lemma {:induction false} InlinesComplete(items: seq<Value>, dedent: (string, int, string) -> string, repr: Value -> string)
    requires forall i :: 0 <= i < |items| ==> items[i].Dict? && InlineReady(items[i].fields)
    ensures |Inlines(items, dedent, repr)| == |items|
    ensures forall i :: 0 <= i < |items| ==> Inlines(items, dedent, repr)[i].original == items[i].fields
  {
    if items != [] {
      var init := items[..|items| - 1];
      InlinesComplete(init, dedent, repr);
      var c := Inline(items[|items| - 1], dedent, repr);
      InlineSpec(items[|items| - 1], dedent, repr);
      assert c.Some? && c.value.original == items[|items| - 1].fields;
      assert Inlines(items, dedent, repr) == Inlines(init, dedent, repr) + [c.value];
    }
  }

  /**
   * When the provider refuses the batch, each comment is sent again on its
   * own, in order; otherwise the batch is the only call.
   */
  lemma PublishedCalls(items: seq<Value>, dedent: (string, int, string) -> string, repr: Value -> string,
                       accepts: seq<InlineSuggestion> -> bool)
    requires items != []
    ensures var cs := Inlines(items, dedent, repr);
            var out := Pushed(items, dedent, repr, accepts);
            && out.Published? && out.calls[0] == cs
            && (accepts(cs) ==> |out.calls| == 1)
            && (!accepts(cs) ==> |out.calls| == |cs| + 1 && forall i :: 0 <= i < |cs| ==> out.calls[i + 1] == [cs[i]])
  {
    var cs := Inlines(items, dedent, repr);
    if !accepts(cs) {
      var calls := [cs] + Singletons(cs);
      forall i | 0 <= i < |cs|
        ensures calls[i + 1] == [cs[i]]
      {
        assert calls[i + 1] == Singletons(cs)[i];
      }
    }
  }

  /**
   * Cutting an inline body at its suggestion fence, as the repair of
   * refused comments does, leaves the description line when the content,
   * label and score text hold no backtick.
   */
  lemma RepairedBodyIsDescription(content: string, labelText: string, score: Value, code: string, repr: Value -> string)
    requires Free(Description(content, labelText, score, repr), '`')
    ensures Split(InlineBody(content, labelText, score, code, repr), GithubComments.SuggestionFence)[0]
              == Description(content, labelText, score, repr)
  {
    var desc := Description(content, labelText, score, repr);
    var body := InlineBody(content, labelText, score, code, repr);
    var fence := GithubComments.SuggestionFence;
    assert body == desc + FenceOpen + code + FenceClose;
    assert OccursAt(body, fence, |desc|) by {
      assert body[|desc|..|desc| + |fence|] == fence;
    }
    forall j | 0 <= j < |desc|
      ensures !OccursAt(body, fence, j)
    {
      assert body[j] == desc[j];
      if j + |fence| <= |body| {
        assert body[j..j + |fence|][0] == body[j];
      }
    }
    FindFromAt(body, fence, 0, |desc|);
    assert body[..|desc|] == desc;
  }
}
