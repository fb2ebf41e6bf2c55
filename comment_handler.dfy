/**
 * The GitHub comment helpers: an inline comment placed with the line
 * resolver, and the repair of inline comments GitHub refused.
 */
module GithubComments {
  import opened Wrappers
  import opened Text
  import LineResolver
  import opened PyValues

  const MaxCommentChars := 65000
  const SuggestionFence := "```suggestion"

  /** A comment placed on a line of the diff. */
  datatype InlineComment = InlineComment(body: string, path: string, position: int)

  /**
   * `create_inline_comment`: the body cut to `maxCommentChars`, placed at
   * the position the resolver finds for the file (its name stripped of
   * backticks); `None` (Python's `{}`) when there is no position. The
   * resolver's own errors propagate.
   */
  function CreateInlineComment(body: string, relevantFile: string, relevantLine: string,
                               files: seq<(string, string)>, absolutePosition: Option<int>, maxCommentChars: int,
                               closeMatches: (string, seq<string>) -> seq<string>)
    : (r: Result<Option<InlineComment>>)
    ensures var found := LineResolver.Resolve(files, StripChars(relevantFile, {'`'}), relevantLine, absolutePosition,
                                              closeMatches);
            && (found.Err? <==> r.Err?)
            && (found.Ok? ==> (r.value.None? <==> found.value.0 == -1))
            && (r.Ok? && r.value.Some? ==>
                  && r.value.value.position == found.value.0 && r.value.value.path == Strip(relevantFile)
                  && |r.value.value.body| <= |body|
                  && (0 <= maxCommentChars ==> |r.value.value.body| <= maxCommentChars)
                  && StartsWith(body, r.value.value.body)
                  && r.value.value.body == PySlice(body, 0, maxCommentChars)
                  && (0 <= maxCommentChars ==> r.value.value.body == body[..Min(|body|, maxCommentChars)]))
  {
    var clipped := PySlice(body, 0, maxCommentChars);
    assert StartsWith(body, clipped);
    match LineResolver.Resolve(files, StripChars(relevantFile, {'`'}), relevantLine, absolutePosition, closeMatches)
    case Err(e) => Err(e)
    case Ok((position, _)) =>
      if position == -1 then Ok(None) else Ok(Some(InlineComment(clipped, Strip(relevantFile), position)))
  }

  /** With no diff files there is no position, so no inline comment. */
  lemma NoFilesNoComment(body: string, relevantFile: string, relevantLine: string, absolutePosition: Option<int>,
                         maxCommentChars: int, closeMatches: (string, seq<string>) -> seq<string>)
    ensures CreateInlineComment(body, relevantFile, relevantLine, [], absolutePosition, maxCommentChars, closeMatches)
              == Ok(None)
  {
  }

  // ----- repairing refused comments -----

  /** A comment as the dictionary GitHub takes. */
  type Comment = Dict

  /**
   * The repaired copy of one comment: the body cut before the first
   * suggestion fence, `start_line`/`start_side` moved to `line`/`side`.
   * `None` when the body is missing or not text (the loop's exception
   * handler skips the comment).
   */
  function Repaired(c: Comment): Option<Comment>
  {
    if "body" !in c || !c["body"].Str? then None
    else
      var body := c["body"].s;
      var c1 := if Contains(body, SuggestionFence) then c["body" := Str(Split(body, SuggestionFence)[0])] else c;
      var c2 := if "start_line" in c then c1["line" := c["start_line"]] - {"start_line"} else c1;
      var c3 := if "start_side" in c then c2["side" := c["start_side"]] - {"start_side"} else c2;
      Some(c3)
  }

  /** The comments the repair changed, each repaired, in input order. */
  function FixedComments(cs: seq<Comment>): seq<Comment>
  {
    if cs == [] then []
    else
      var prev := FixedComments(cs[..|cs| - 1]);
      var f := Repaired(cs[|cs| - 1]);
      if f.Some? && f.value != cs[|cs| - 1] then prev + [f.value] else prev
  }

  /** `try_fix_invalid_inline_comments`; the inputs are values, so the originals stay as they were. */
  method TryFixInvalidInlineComments(invalidComments: seq<Comment>) returns (fixedComments: seq<Comment>)
    ensures fixedComments == FixedComments(invalidComments)
  {
    fixedComments := [];
    for k := 0 to |invalidComments|
      invariant fixedComments == FixedComments(invalidComments[..k])
    {
      var comment := invalidComments[k];
      assert invalidComments[..k + 1][..k] == invalidComments[..k];
      if "body" !in comment || !comment["body"].Str? {
        continue;
      }
      var fixedComment := comment;
      if Contains(comment["body"].s, SuggestionFence) {
        fixedComment := fixedComment["body" := Str(Split(comment["body"].s, SuggestionFence)[0])];
      }
      if "start_line" in comment {
        fixedComment := fixedComment["line" := comment["start_line"]];
        fixedComment := fixedComment - {"start_line"};
      }
      if "start_side" in comment {
        fixedComment := fixedComment["side" := comment["start_side"]];
        fixedComment := fixedComment - {"start_side"};
      }
      if fixedComment != comment {
        fixedComments := fixedComments + [fixedComment];
      }
    }
    assert invalidComments[..|invalidComments|] == invalidComments;
  }

  // ----- properties -----

  /** The part before the first occurrence of a separator does not hold it. */
  lemma SplitHeadFree(s: string, sep: string)
    requires sep != []
    ensures !Contains(Split(s, sep)[0], sep)
  {
    var i := Find(s, sep);
    FindFromFirst(s, sep, 0);
    var h := Split(s, sep)[0];
    assert h == if i == -1 then s else s[..i];
    forall j | 0 <= j && j + |sep| <= |h|
      ensures !OccursAt(h, sep, j)
    {
      assert !OccursAt(s, sep, j);
      assert h[j..j + |sep|] == s[j..j + |sep|];
    }
    ContainsIff(h, sep);
  }

  /**
   * A repaired comment has no suggestion in its body and no `start_line` or
   * `start_side`; their values now sit under `line` and `side`; every
   * other field is as it was.
   */
  lemma RepairedShape(c: Comment)
    requires Repaired(c).Some?
    ensures var f := Repaired(c).value;
            && "body" in f && f["body"].Str? && !Contains(f["body"].s, SuggestionFence)
            && "start_line" !in f && "start_side" !in f
            && ("start_line" in c ==> "line" in f && f["line"] == c["start_line"])
            && ("start_side" in c ==> "side" in f && f["side"] == c["start_side"])
            && (forall k :: k in c && k !in {"body", "start_line", "start_side", "line", "side"} ==>
                  k in f && f[k] == c[k])
            && (forall k :: k in f ==> k in c || k in {"line", "side"})
  {
    if Contains(c["body"].s, SuggestionFence) {
      SplitHeadFree(c["body"].s, SuggestionFence);
    }
  }

  /** A comment with no suggestion fence and neither `start_line` nor `start_side` is not returned. */
  lemma UnchangedDropped(c: Comment)
    requires "body" in c && c["body"].Str? && !Contains(c["body"].s, SuggestionFence)
    requires "start_line" !in c && "start_side" !in c
    ensures Repaired(c) == Some(c)
    ensures FixedComments([c]) == []
  {
    assert [c][..0] == [];
  }

  /** Every comment returned is a repaired input that differs from its original, and in input order. */
  lemma {:induction false} FixedCommentsFrom(cs: seq<Comment>)
    ensures |FixedComments(cs)| <= |cs|
    ensures forall x :: x in FixedComments(cs) ==>
              exists k :: 0 <= k < |cs| && Repaired(cs[k]) == Some(x) && x != cs[k]
  {
    if cs != [] {
      var init := cs[..|cs| - 1];
      FixedCommentsFrom(init);
      forall x | x in FixedComments(cs)
        ensures exists k :: 0 <= k < |cs| && Repaired(cs[k]) == Some(x) && x != cs[k]
      {
        if x in FixedComments(init) {
          var k :| 0 <= k < |init| && Repaired(init[k]) == Some(x) && x != init[k];
          assert cs[k] == init[k];
        } else {
          assert Repaired(cs[|cs| - 1]) == Some(x) && x != cs[|cs| - 1];
        }
      }
    }
  }

  /** Conversely, every comment the repair changes is returned, repaired. */
  lemma {:induction false} ChangedReturned(cs: seq<Comment>, k: nat)
    requires k < |cs| && Repaired(cs[k]).Some? && Repaired(cs[k]).value != cs[k]
    ensures Repaired(cs[k]).value in FixedComments(cs)
  {
    var init := cs[..|cs| - 1];
    if k < |cs| - 1 {
      ChangedReturned(init, k);
    }
  }

  /** The repair goes comment by comment: the returned lists of two runs concatenate, keeping input order. */
  lemma {:induction false} FixedCommentsAppend(a: seq<Comment>, b: seq<Comment>)
    ensures FixedComments(a + b) == FixedComments(a) + FixedComments(b)
  {
    if b != [] {
      var binit := b[..|b| - 1];
      FixedCommentsAppend(a, binit);
      assert (a + b)[..|a + b| - 1] == a + binit;
    } else {
      assert a + b == a;
    }
  }
}
