/**
 * Small text helpers of the pipeline: order-preserving de-duplication,
 * command-line setting overrides, user-label filtering, code-tag rendering
 * and the "repo#number" string.
 */
module TextUtils {
  import opened Wrappers
  import opened Text

  // ----- unique_strings -----

  /** The items of `xs` that do not occur earlier, in order. */
  function FirstOccurrences(xs: seq<string>): (r: seq<string>)
    ensures |r| <= |xs|
  {
    if xs == [] then []
    else
      var init := xs[..|xs| - 1];
      FirstOccurrences(init) + (if xs[|xs| - 1] in init then [] else [xs[|xs| - 1]])
  }

  predicate NoDuplicates(xs: seq<string>)
  {
    forall i, j :: 0 <= i < j < |xs| ==> xs[i] != xs[j]
  }

  /** `unique_strings`: the seen set and the output list grow together. */
  method UniqueStrings(inputList: seq<string>) returns (r: seq<string>)
    ensures r == FirstOccurrences(inputList)
  {
    if inputList == [] {
      return inputList;
    }
    var seen: set<string> := {};
    r := [];
    for n := 0 to |inputList|
      invariant r == FirstOccurrences(inputList[..n])
      invariant seen == set k | 0 <= k < n :: inputList[k]
    {
      var item := inputList[n];
      assert inputList[..n + 1][..n] == inputList[..n];
      assert item in seen <==> item in inputList[..n];
      if item !in seen {
        r := r + [item];
        seen := seen + {item};
      }
    }
    assert inputList[..|inputList|] == inputList;
  }

  /** The output holds every item of the input and no other, each once. */
  lemma {:induction false} FirstOccurrencesSpec(xs: seq<string>)
    ensures NoDuplicates(FirstOccurrences(xs))
    ensures forall x :: x in FirstOccurrences(xs) <==> x in xs
  {
    if xs != [] {
      var init := xs[..|xs| - 1];
      FirstOccurrencesSpec(init);
      assert xs == init + [xs[|xs| - 1]];
    }
  }

  /** A list without duplicates is its own de-duplication, so de-duplicating twice changes nothing. */
  lemma {:induction false} FirstOccurrencesOfDistinct(xs: seq<string>)
    requires NoDuplicates(xs)
    ensures FirstOccurrences(xs) == xs
  {
    if xs != [] {
      var init := xs[..|xs| - 1];
      FirstOccurrencesOfDistinct(init);
      assert xs[|xs| - 1] !in init;
      assert xs == init + [xs[|xs| - 1]];
    }
  }

  lemma UniqueStringsIdempotent(xs: seq<string>)
    ensures FirstOccurrences(FirstOccurrences(xs)) == FirstOccurrences(xs)
  {
    FirstOccurrencesSpec(xs);
    FirstOccurrencesOfDistinct(FirstOccurrences(xs));
  }

  // ----- update_settings_from_args and _fix_key_value -----

  /** A configuration override: the normalised key and the stripped value text. */
  datatype Setting = Setting(key: string, value: string)

  /** `_fix_key_value`: the key stripped and upper-cased, the value stripped. */
  function FixKeyValue(key: string, value: string): (r: Setting)
    ensures r.key == Upper(Strip(key)) && r.value == Strip(value)
  {
    Setting(Upper(Strip(key)), Strip(value))
  }

  /** What one argument becomes: a setting, or an argument passed on. */
  datatype ArgOutcome = Override(setting: Setting) | PassOn(arg: string)

  /** One argument: stripped; a "--" argument loses its dashes and is an override when it holds '='. */
  function ParseArg(arg: string): ArgOutcome
  {
    var a := Strip(arg);
    if StartsWith(a, "--") then
      var b := Strip(StripChars(a, {'-'}));
      var i := Find(b, "=");
      if i == -1 then PassOn(b)
      else Override(FixKeyValue(b[..i], b[i + 1..]))
    else PassOn(a)
  }

  /** The settings made and the arguments passed on by the first `n` arguments. */
  function ArgsOutcome(args: seq<string>): (r: (seq<Setting>, seq<string>))
    ensures |r.0| + |r.1| == |args|
  {
    if args == [] then ([], [])
    else
      var (settings, others) := ArgsOutcome(args[..|args| - 1]);
      match ParseArg(args[|args| - 1])
      case Override(s) => (settings + [s], others)
      case PassOn(a) => (settings, others + [a])
  }

  /**
   * `update_settings_from_args`: returns the arguments that were not overrides;
   * the settings it makes are returned beside them, in order.
   */
  method UpdateSettingsFromArgs(args: seq<string>) returns (settings: seq<Setting>, otherArgs: seq<string>)
    ensures (settings, otherArgs) == ArgsOutcome(args)
  {
    settings, otherArgs := [], [];
    for n := 0 to |args|
      invariant (settings, otherArgs) == ArgsOutcome(args[..n])
    {
      assert args[..n + 1][..n] == args[..n];
      var arg := Strip(args[n]);
      if StartsWith(arg, "--") {
        arg := Strip(StripChars(arg, {'-'}));
        var i := Find(arg, "=");
        if i == -1 {
          otherArgs := otherArgs + [arg];
          continue;
        }
        var setting := FixKeyValue(arg[..i], arg[i + 1..]);
        settings := settings + [setting];
      } else {
        otherArgs := otherArgs + [arg];
      }
    }
    assert args[..|args|] == args;
  }

  /** An argument that does not start with "--" passes on, stripped. */
  lemma PlainArgPassesOn(arg: string)
    requires !StartsWith(Strip(arg), "--")
    ensures ParseArg(arg) == PassOn(Strip(arg))
  {
  }

  /** A "--" argument holding '=' is always consumed as a setting. */
  lemma {:induction false} OverridesConsumed(args: seq<string>, k: nat)
    requires k < |args|
    requires StartsWith(Strip(args[k]), "--") && Contains(Strip(StripChars(Strip(args[k]), {'-'})), "=")
    ensures |ArgsOutcome(args).1| < |args|
  {
    ArgsOutcomeCounts(args, k);
  }

  lemma {:induction false} ArgsOutcomeCounts(args: seq<string>, k: nat)
    requires k < |args| && ParseArg(args[k]).Override?
    ensures |ArgsOutcome(args).0| >= 1
  {
    if k < |args| - 1 {
      ArgsOutcomeCounts(args[..|args| - 1], k);
    }
  }

  // ----- get_user_labels -----

  const DefaultLabels: seq<string> := ["bug fix", "tests", "enhancement", "documentation", "other"]

  /** A label the user added: not a default label in any case, and not a configured custom label when those are on. */
  predicate UserLabel(name: string, enableCustomLabels: bool, customLabels: seq<string>)
  {
    Lower(name) !in DefaultLabels && !(enableCustomLabels && name in customLabels)
  }

  /** The user's labels among `labels`, in their order. */
  function UserLabelsOf(labels: seq<string>, enableCustomLabels: bool, customLabels: seq<string>): (r: seq<string>)
    ensures |r| <= |labels|
  {
    if labels == [] then []
    else
      var prev := UserLabelsOf(labels[..|labels| - 1], enableCustomLabels, customLabels);
      var name := labels[|labels| - 1];
      if UserLabel(name, enableCustomLabels, customLabels) then prev + [name] else prev
  }

  /** A label is kept exactly when it is among the input and is the user's. */
  lemma {:induction false} UserLabelsOfMembers(labels: seq<string>, enableCustomLabels: bool, customLabels: seq<string>)
    ensures forall x :: x in UserLabelsOf(labels, enableCustomLabels, customLabels) <==>
              x in labels && UserLabel(x, enableCustomLabels, customLabels)
  {
    if labels != [] {
      var init := labels[..|labels| - 1];
      UserLabelsOfMembers(init, enableCustomLabels, customLabels);
      assert labels == init + [labels[|labels| - 1]];
    }
  }

  /** When every label is the user's, all are kept, in order. */
  lemma {:induction false} UserLabelsOfAllKept(labels: seq<string>, enableCustomLabels: bool, customLabels: seq<string>)
    requires forall k :: 0 <= k < |labels| ==> UserLabel(labels[k], enableCustomLabels, customLabels)
    ensures UserLabelsOf(labels, enableCustomLabels, customLabels) == labels
  {
    if labels != [] {
      var init := labels[..|labels| - 1];
      UserLabelsOfAllKept(init, enableCustomLabels, customLabels);
      assert labels == init + [labels[|labels| - 1]];
    }
  }

  /** Filtering the kept labels again keeps all of them. */
  lemma UserLabelsOfIdempotent(labels: seq<string>, enableCustomLabels: bool, customLabels: seq<string>)
    ensures var r := UserLabelsOf(labels, enableCustomLabels, customLabels);
            UserLabelsOf(r, enableCustomLabels, customLabels) == r
  {
    var r := UserLabelsOf(labels, enableCustomLabels, customLabels);
    UserLabelsOfMembers(labels, enableCustomLabels, customLabels);
    forall k | 0 <= k < |r|
      ensures UserLabel(r[k], enableCustomLabels, customLabels)
    {
      assert r[k] in r;
    }
    UserLabelsOfAllKept(r, enableCustomLabels, customLabels);
  }

  /** `get_user_labels`: the labels the user added, in order; no labels means none. */
  method GetUserLabels(currentLabels: Option<seq<string>>, enableCustomLabels: bool, customLabels: seq<string>)
    returns (userLabels: seq<string>)
    ensures userLabels == UserLabelsOf(if currentLabels.Some? then currentLabels.value else [], enableCustomLabels, customLabels)
    ensures forall x :: x in userLabels <==>
              currentLabels.Some? && x in currentLabels.value && UserLabel(x, enableCustomLabels, customLabels)
    ensures currentLabels.Some? ==> |userLabels| <= |currentLabels.value|
    ensures currentLabels.Some? ==>
              ((forall k :: 0 <= k < |currentLabels.value| ==> UserLabel(currentLabels.value[k], enableCustomLabels, customLabels))
               ==> userLabels == currentLabels.value)
  {
    var labels := if currentLabels.Some? then currentLabels.value else [];
    userLabels := [];
    for n := 0 to |labels|
      invariant userLabels == UserLabelsOf(labels[..n], enableCustomLabels, customLabels)
    {
      var name := labels[n];
      assert labels[..n + 1][..n] == labels[..n];
      if Lower(name) in DefaultLabels {
        continue;
      }
      if enableCustomLabels {
        if name in customLabels {
          continue;
        }
      }
      userLabels := userLabels + [name];
    }
    assert labels[..|labels|] == labels;
    UserLabelsOfMembers(labels, enableCustomLabels, customLabels);
    if forall k :: 0 <= k < |labels| ==> UserLabel(labels[k], enableCustomLabels, customLabels) {
      UserLabelsOfAllKept(labels, enableCustomLabels, customLabels);
    }
  }

  // ----- replace_code_tags -----

  /** The pieces with every odd-indexed one wrapped in a code element. */
  function CodeTagged(parts: seq<string>): (r: seq<string>)
    ensures |r| == |parts|
  {
    seq(|parts|, i requires 0 <= i < |parts| => if i % 2 == 1 then "<code>" + parts[i] + "</code>" else parts[i])
  }

  /**
   * `replace_code_tags`: escapes the text with `escape` (`html.escape`), then
   * wraps every odd-indexed backtick-separated piece in `<code>...</code>`.
   */
  method ReplaceCodeTags(text: string, escape: string -> string) returns (r: string)
    ensures r == Concat(CodeTagged(Split(escape(text), "`")))
  {
    var escaped := escape(text);
    var parts := Split(escaped, "`");
    ghost var original := parts;
    var i := 1;
    while i < |parts|
      invariant |parts| == |original|
      invariant 1 <= i && i % 2 == 1
      invariant forall k :: 0 <= k < |parts| ==> parts[k] == (if k % 2 == 1 && k < i then "<code>" + original[k] + "</code>" else original[k])
    {
      parts := parts[i := "<code>" + parts[i] + "</code>"];
      i := i + 2;
    }
    assert parts == CodeTagged(original);
    r := Concat(parts);
  }

  /** No backtick survives: the separators are dropped and the tags hold none. */
  lemma NoBackticks(text: string, escape: string -> string)
    ensures '`' !in Concat(CodeTagged(Split(escape(text), "`")))
  {
    var parts := Split(escape(text), "`");
    SplitPiecesFree(escape(text));
    var tagged := CodeTagged(parts);
    forall k | 0 <= k < |tagged|
      ensures '`' !in tagged[k]
    {
      if k % 2 == 1 {
        assert tagged[k] == "<code>" + parts[k] + "</code>";
      }
    }
    ConcatFree(tagged, '`');
  }

  /** No piece of a split on a backtick holds one. */
  lemma {:induction false} SplitPiecesFree(s: string)
    ensures forall k :: 0 <= k < |Split(s, "`")| ==> '`' !in Split(s, "`")[k]
    decreases |s|
  {
    var i := Find(s, "`");
    if i == -1 {
      ContainsIff(s, "`");
      assert Split(s, "`") == [s];
      forall j | 0 <= j < |s|
        ensures s[j] != '`'
      {
        assert !OccursAt(s, "`", j);
        assert s[j..j + 1] == [s[j]];
      }
    } else {
      FindFromFirst(s, "`", 0);
      SplitAt(s, "`", i);
      SplitPiecesFree(s[i + 1..]);
      forall j | 0 <= j < i
        ensures s[j] != '`'
      {
        assert !OccursAt(s, "`", j);
        assert s[j..j + 1] == [s[j]];
      }
    }
  }

  lemma {:induction false} ConcatFree(xs: seq<string>, c: char)
    requires forall k :: 0 <= k < |xs| ==> c !in xs[k]
    ensures c !in Concat(xs)
  {
    if xs != [] {
      ConcatFree(xs[1..], c);
    }
  }

  // ----- set_pr_string -----

  /** `set_pr_string`: the repository name, '#', the number. */
  function SetPrString(repoName: string, prNumber: int): (r: string)
    ensures |r| > |repoName| + 1
    ensures r[..|repoName|] == repoName && r[|repoName|] == '#'
    ensures ParseInt(r[|repoName| + 1..]) == Some(prNumber)
  {
    var r := repoName + "#" + IntToString(prNumber);
    assert r[|repoName| + 1..] == IntToString(prNumber);
    ParseIntOfInt(prNumber);
    r
  }
}
