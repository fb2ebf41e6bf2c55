/**
 * Token limits: the context window of a model (`get_max_tokens`) and the
 * clipping of a text to a token budget (`clip_tokens`).
 *
 * The model table, the two configuration values and the tokenizer's count are
 * parameters. The source computes the kept length as
 * `int(0.9 * len/count * max)` in floating point; here it is the exact
 * `floor(9 * len * max / (10 * count))`.
 */
module Tokens {
  import opened Wrappers
  import opened Text

  /** The limit before capping: the table entry, else the custom limit. */
  function BaseLimit(model: string, table: map<string, int>, customModelMaxTokens: int): int
  {
    if model in table then table[model] else customModelMaxTokens
  }

  /**
   * `get_max_tokens`: the table entry of the model, else a positive custom
   * limit, else an error; a positive `maxModelTokens` then caps it.
   */
  function GetMaxTokens(model: string, table: map<string, int>, customModelMaxTokens: int, maxModelTokens: int)
    : (r: Result<int>)
    ensures r.Err? <==> model !in table && customModelMaxTokens <= 0
    ensures r.Ok? ==> r.value <= BaseLimit(model, table, customModelMaxTokens)
    ensures r.Ok? && maxModelTokens > 0 ==> r.value <= maxModelTokens
    ensures r.Ok? ==> r.value == BaseLimit(model, table, customModelMaxTokens) || (maxModelTokens > 0 && r.value == maxModelTokens)
  {
    if model !in table && customModelMaxTokens <= 0 then
      Err(Failure("model is not defined in MAX_TOKENS and no custom_model_max_tokens is set"))
    else
      var base := BaseLimit(model, table, customModelMaxTokens);
      Ok(if maxModelTokens > 0 then Min(maxModelTokens, base) else base)
  }

  /** An unlimited model keeps its table value; a cap below it wins. */
  lemma GetMaxTokensCap(model: string, table: map<string, int>, custom: int, cap: int)
    requires model in table
    ensures cap <= 0 ==> GetMaxTokens(model, table, custom, cap) == Ok(table[model])
    ensures 0 < cap <= table[model] ==> GetMaxTokens(model, table, custom, cap) == Ok(cap)
  {
  }

  const Truncated: string := "\n...(truncated)"

  /** `s.rsplit(c, 1)[0]`: the text before the last `c`, or all of `s` when there is none. */
  function BeforeLast(s: string, c: char): (r: string)
    ensures |r| <= |s|
    decreases |s|
  {
    if c !in s then s
    else if s[|s| - 1] == c then s[..|s| - 1]
    else BeforeLast(s[..|s| - 1], c)
  }

  /** The part before the last `c` is a prefix, followed by that `c` and no other. */
  lemma {:induction false} BeforeLastSpec(s: string, c: char)
    ensures BeforeLast(s, c) == s[..|BeforeLast(s, c)|]
    ensures c in s ==> |BeforeLast(s, c)| < |s| && s[|BeforeLast(s, c)|] == c
                       && c !in s[|BeforeLast(s, c)| + 1..]
    ensures c !in s ==> BeforeLast(s, c) == s
    decreases |s|
  {
    if c !in s {
    } else if s[|s| - 1] == c {
      assert s[|s|..] == [];
    } else {
      var t := s[..|s| - 1];
      BeforeLastSpec(t, c);
      var r := BeforeLast(t, c);
      assert BeforeLast(s, c) == r;
      assert s == t + [s[|s| - 1]];
      assert t[..|r|] == s[..|r|];
      assert c in s <==> c in t;
      if c in t {
        assert s[|r|] == t[|r|];
        assert s[|r| + 1..] == t[|r| + 1..] + [s[|s| - 1]];
      }
    }
  }

  /** The number of characters kept for a text of `len` characters and `count` tokens. */
  function KeptChars(len: nat, count: nat, maxTokens: nat): nat
    requires count > 0
  {
    ProductNonNegative(9 * len, maxTokens);
    (9 * len * maxTokens) / (10 * count)
  }

  /** The solver's arithmetic does not see unaided that a product of naturals is one. */
  lemma ProductNonNegative(a: nat, b: nat)
    ensures a * b >= 0
  {
  }

  /** Clipping for a budget smaller than the count keeps a proper part of the text. */
  lemma KeptCharsBound(len: nat, count: nat, maxTokens: nat)
    requires len > 0 && count > maxTokens
    ensures KeptChars(len, count, maxTokens) < len
  {
    var k := KeptChars(len, count, maxTokens);
    assert 9 * len * maxTokens < 10 * count * len;
    assert k * (10 * count) <= 9 * len * maxTokens;
    assert k * (10 * count) < len * (10 * count);
  }

  /**
   * `clip_tokens` for a text whose tokenizer count is `count`: unchanged
   * within the budget, empty for a negative budget, else a proper prefix of
   * the text, optionally cut at its last newline, with the truncation note.
   */
  function ClipTokens(text: string, maxTokens: int, count: nat, addThreeDots: bool, deleteLastLine: bool)
    : (r: string)
    ensures text == [] || count <= maxTokens ==> r == text
    ensures text != [] && count > maxTokens && maxTokens < 0 ==> r == ""
    ensures text != [] && count > maxTokens >= 0 ==>
              var n := KeptChars(|text|, count, maxTokens);
              || (n == 0 && r == "")
              || (n > 0 && exists kept :: |kept| <= n < |text| && kept == text[..|kept|]
                                          && r == kept + (if addThreeDots then Truncated else ""))
  {
    if text == [] || count <= maxTokens then text
    else if maxTokens < 0 then ""
    else
      var n := KeptChars(|text|, count, maxTokens);
      if n > 0 then
        KeptCharsBound(|text|, count, maxTokens);
        var clipped := text[..n];
        var kept := if deleteLastLine then BeforeLast(clipped, '\n') else clipped;
        BeforeLastSpec(clipped, '\n');
        assert kept == text[..|kept|];
        kept + (if addThreeDots then Truncated else "")
      else ""
  }

  /** A zero budget clips any non-empty counted text to nothing. */
  lemma ClipToZero(text: string, count: nat, addThreeDots: bool, deleteLastLine: bool)
    requires text != [] && count > 0
    ensures ClipTokens(text, 0, count, addThreeDots, deleteLastLine) == ""
  {
  }

  /**
   * With `deleteLastLine`, the kept part ends where the last newline of the
   * first `n` characters was, or is all of them when they hold none.
   */
  lemma ClipDeletesLastLine(text: string, maxTokens: int, count: nat, addThreeDots: bool)
    requires text != [] && count > maxTokens >= 0 && KeptChars(|text|, count, maxTokens) > 0
    ensures var n := KeptChars(|text|, count, maxTokens);
            var r := ClipTokens(text, maxTokens, count, addThreeDots, true);
            var kept := if addThreeDots then r[..|r| - |Truncated|] else r;
            && |r| >= (if addThreeDots then |Truncated| else 0)
            && n <= |text|
            && ('\n' in text[..n] ==> |kept| < n && text[|kept|] == '\n' && '\n' !in text[|kept| + 1..n])
            && ('\n' !in text[..n] ==> kept == text[..n])
  {
    var n := KeptChars(|text|, count, maxTokens);
    KeptCharsBound(|text|, count, maxTokens);
    var kept := BeforeLast(text[..n], '\n');
    BeforeLastSpec(text[..n], '\n');
    var r := ClipTokens(text, maxTokens, count, addThreeDots, true);
    assert r == kept + (if addThreeDots then Truncated else "");
    if '\n' in text[..n] {
      assert text[..n][|kept| + 1..] == text[|kept| + 1..n];
    }
  }
}
