/**
 * Dropping deletion-only hunks from a patch (`omit_deletion_hunks`) and the
 * per-file entry point that also maps a deleted file to "no patch"
 * (`handle_patch_deletions`).
 *
 * The loop buffers lines and flushes the buffer only at a header that follows
 * a buffered added line; the buffer is not cleared otherwise. So the result is
 * a prefix of the patch's lines: a hunk without added lines survives when a
 * later hunk has some, and only the trailing hunks without added lines are
 * dropped. `LongestClosedPrefix` states that directly.
 *
 * The prefix reasoning is done once for any element type, with "opens a hunk"
 * and "is an added line" as parameters, and used with the header pattern and
 * the leading '+'.
 */
module DeletionHunks {
  import opened Wrappers
  import opened Text
  import opened HunkHeaders
  import opened PrTypes

  // ----- blocks of lines, for any notion of header and added line -----

  /** `s` without the elements `drop` holds for, in order. */
  function Without<T>(s: seq<T>, drop: T -> bool): (r: seq<T>)
    ensures |r| <= |s|
  {
    if s == [] then []
    else Without(s[..|s| - 1], drop) + (if drop(s[|s| - 1]) then [] else [s[|s| - 1]])
  }

  lemma {:induction false} WithoutStep<T>(s: seq<T>, n: nat, drop: T -> bool)
    requires n < |s|
    ensures Without(s[..n + 1], drop) == Without(s[..n], drop) + (if drop(s[n]) then [] else [s[n]])
  {
    assert s[..n + 1][..n] == s[..n];
  }

  /** Every element left is an element of `s` that `drop` rejects. */
  lemma {:induction false} WithoutElements<T>(s: seq<T>, drop: T -> bool, i: nat)
    requires i < |Without(s, drop)|
    ensures !drop(Without(s, drop)[i]) && Without(s, drop)[i] in s
    decreases |s|
  {
    var front := Without(s[..|s| - 1], drop);
    if i < |front| {
      WithoutElements(s[..|s| - 1], drop, i);
      assert Without(s, drop)[i] == front[i];
    } else {
      assert Without(s, drop)[i] == s[|s| - 1];
    }
  }

  lemma {:induction false} WithoutNothing<T>(s: seq<T>, drop: T -> bool)
    requires forall i :: 0 <= i < |s| ==> !drop(s[i])
    ensures Without(s, drop) == s
    decreases |s|
  {
    if s != [] {
      WithoutNothing(s[..|s| - 1], drop);
      assert s[..|s| - 1] + [s[|s| - 1]] == s;
    }
  }

  predicate HasSome<T>(a: seq<T>, p: T -> bool) { exists i :: 0 <= i < |a| && p(a[i]) }

  /**
   * A block kept whole: it holds a header and an added element, and every
   * header after the first one is followed somewhere by an added element.
   */
  predicate Closed<T>(a: seq<T>, opens: T -> bool, adds: T -> bool)
  {
    && HasSome(a, opens)
    && HasSome(a, adds)
    && forall i, j :: 0 <= i < j < |a| && opens(a[i]) && opens(a[j]) ==>
         exists p :: j < p < |a| && adds(a[p])
  }

  /** The longest closed prefix of `k`, or nothing when no prefix is closed. */
  function LongestClosedPrefix<T>(k: seq<T>, opens: T -> bool, adds: T -> bool): (r: seq<T>)
    ensures |r| <= |k| && r == k[..|r|]
    ensures r == [] || Closed(r, opens, adds)
    decreases |k|
  {
    if Closed(k, opens, adds) then k
    else if k == [] then []
    else
      var r := LongestClosedPrefix(k[..|k| - 1], opens, adds);
      assert k[..|k| - 1][..|r|] == k[..|r|];
      r
  }

  /** No longer prefix is closed. */
  lemma {:induction false} LongestClosedPrefixMaximal<T>(k: seq<T>, opens: T -> bool, adds: T -> bool, c: nat)
    requires |LongestClosedPrefix(k, opens, adds)| < c <= |k|
    ensures !Closed(k[..c], opens, adds)
    decreases |k|
  {
    if c == |k| {
      assert k[..c] == k;
    } else {
      LongestClosedPrefixMaximal(k[..|k| - 1], opens, adds, c);
      assert k[..|k| - 1][..c] == k[..c];
    }
  }

  /** Being a closed (or empty) prefix with no longer closed prefix determines the result. */
  lemma {:induction false} LongestClosedPrefixUnique<T>(k: seq<T>, opens: T -> bool, adds: T -> bool, a: seq<T>)
    requires |a| <= |k| && a == k[..|a|] && (a == [] || Closed(a, opens, adds))
    requires forall c :: |a| < c <= |k| ==> !Closed(k[..c], opens, adds)
    ensures LongestClosedPrefix(k, opens, adds) == a
  {
    var r := LongestClosedPrefix(k, opens, adds);
    if |r| < |a| {
      LongestClosedPrefixMaximal(k, opens, adds, |a|);
    }
  }

  lemma {:induction false} AppendFacts<T>(a: seq<T>, x: T, p: T -> bool)
    ensures HasSome(a + [x], p) <==> HasSome(a, p) || p(x)
  {
    var b := a + [x];
    assert b[|a|] == x;
    if HasSome(a, p) {
      var i :| 0 <= i < |a| && p(a[i]);
      assert b[i] == a[i];
    }
    if HasSome(b, p) {
      var i :| 0 <= i < |b| && p(b[i]);
      if i < |a| { assert a[i] == b[i]; }
    }
  }

  lemma {:induction false} SuffixHas<T>(a: seq<T>, t: seq<T>, p: T -> bool)
    requires HasSome(t, p)
    ensures HasSome(a + t, p)
  {
    var i :| 0 <= i < |t| && p(t[i]);
    assert (a + t)[|a| + i] == t[i];
  }

  /** An element that is not a header keeps a closed block closed. */
  lemma {:induction false} AppendPlain<T>(a: seq<T>, x: T, opens: T -> bool, adds: T -> bool)
    requires Closed(a, opens, adds) && !opens(x)
    ensures Closed(a + [x], opens, adds)
  {
    var b := a + [x];
    AppendFacts(a, x, opens);
    AppendFacts(a, x, adds);
    forall i, j | 0 <= i < j < |b| && opens(b[i]) && opens(b[j])
      ensures exists p :: j < p < |b| && adds(b[p])
    {
      assert j < |a| && a[i] == b[i] && a[j] == b[j];
      var p :| j < p < |a| && adds(a[p]);
      assert b[p] == a[p];
    }
  }

  /** An added element after a header closes the block. */
  lemma {:induction false} AppendAddition<T>(a: seq<T>, x: T, opens: T -> bool, adds: T -> bool)
    requires HasSome(a, opens) && adds(x) && !opens(x)
    ensures Closed(a + [x], opens, adds)
  {
    var b := a + [x];
    AppendFacts(a, x, opens);
    AppendFacts(a, x, adds);
    assert b[|a|] == x;
    forall i, j | 0 <= i < j < |b| && opens(b[i]) && opens(b[j])
      ensures exists p :: j < p < |b| && adds(b[p])
    {
      assert j < |a|;
      assert adds(b[|a|]);
    }
  }

  /** The first header, after an added element, closes the block. */
  lemma {:induction false} AppendFirstHeader<T>(a: seq<T>, x: T, opens: T -> bool, adds: T -> bool)
    requires !HasSome(a, opens) && HasSome(a, adds) && opens(x)
    ensures Closed(a + [x], opens, adds)
  {
    var b := a + [x];
    AppendFacts(a, x, opens);
    AppendFacts(a, x, adds);
    forall i | 0 <= i < |a|
      ensures !opens(b[i])
    {
      assert b[i] == a[i];
    }
  }

  /**
   * A closed (or empty) block followed by a buffer that starts with a header
   * and, unless nothing has a header, holds no added element: the block is the
   * longest closed prefix.
   */
  lemma {:induction false} UnflushedDropped<T>(k: seq<T>, opens: T -> bool, adds: T -> bool, added: seq<T>, temp: seq<T>)
    requires added + temp == k
    requires added != [] ==> Closed(added, opens, adds) && temp != [] && opens(temp[0])
    requires !(HasSome(k, opens) && HasSome(temp, adds))
    ensures LongestClosedPrefix(k, opens, adds) == added
  {
    assert k[..|added|] == added;
    forall c | |added| < c <= |k|
      ensures !Closed(k[..c], opens, adds)
    {
      var b := k[..c];
      if added == [] {
        if HasSome(b, opens) {
          var i :| 0 <= i < |b| && opens(b[i]);
          assert k[i] == b[i];
        }
        if HasSome(b, adds) {
          var i :| 0 <= i < |b| && adds(b[i]);
          assert temp[i] == b[i];
        }
      } else {
        var i :| 0 <= i < |added| && opens(added[i]);
        var j := |added|;
        assert b[i] == added[i] && b[j] == temp[0];
        assert HasSome(k, opens) by { assert k[i] == added[i]; }
        forall p | j < p < |b|
          ensures !adds(b[p])
        {
          assert temp[p - j] == b[p];
        }
      }
    }
    LongestClosedPrefixUnique(k, opens, adds, added);
  }

  /** The buffers after one more element, flushed or not. */
  lemma {:induction false} Regroup<T>(a: seq<T>, t: seq<T>, x: T, k: seq<T>)
    requires a + t == k
    ensures a + (t + [x]) == k + [x]
    ensures (a + t) + ([] + [x]) == k + [x]
  {
  }

  // ----- patch lines -----

  /** A line the loop treats as a hunk header. */
  predicate Opens(line: string) { StartsWith(line, "@@") && IsHeader(line) }

  /** A line starting with "@@" that the header pattern rejects: the loop ignores it. */
  predicate Skipped(line: string) { StartsWith(line, "@@") && !IsHeader(line) }

  /** An added line. */
  predicate IsAddition(line: string) { line != [] && line[0] == '+' }

  lemma {:induction false} AdditionNotHeader(line: string)
    requires IsAddition(line)
    ensures !StartsWith(line, "@@") && !Opens(line) && !Skipped(line)
  {
    assert |line| < 2 || line[..2][0] == '+';
  }

  lemma {:induction false} HeaderNotAddition(line: string)
    requires StartsWith(line, "@@")
    ensures !IsAddition(line)
  {
    assert line[..2][0] == '@';
  }

  /** The lines of a patch the loop buffers: all but the ignored "@@" lines. */
  function Kept(patchLines: seq<string>): seq<string>
  {
    Without(patchLines, Skipped)
  }

  /** `omit_deletion_hunks`: the longest closed prefix of the buffered lines, joined. */
  function Omitted(patchLines: seq<string>): string
  {
    Join("\n", LongestClosedPrefix(Kept(patchLines), Opens, IsAddition))
  }

  /**
   * What the loop's variables hold once the lines whose buffered part is `k`
   * are done: the flushed lines and the buffer make up `k`; `insideHunk` says
   * whether a header was seen and `addHunk` whether the buffer holds an added
   * line; the flushed lines are closed and the buffer then starts with a
   * header; and the lines so far are closed whenever a flush is due.
   */
  ghost predicate Buffered(k: seq<string>, addedPatched: seq<string>, tempHunk: seq<string>, addHunk: bool, insideHunk: bool)
  {
    && addedPatched + tempHunk == k
    && insideHunk == HasSome(k, Opens)
    && addHunk == HasSome(tempHunk, IsAddition)
    && (addedPatched != [] ==> Closed(addedPatched, Opens, IsAddition) && tempHunk != [] && Opens(tempHunk[0]))
    && (addHunk && insideHunk ==> Closed(k, Opens, IsAddition))
  }

  /** `omit_deletion_hunks`: the buffered lines, flushed at each header that follows an added line. */
  method OmitDeletionHunks(patchLines: seq<string>) returns (r: string)
    ensures r == Omitted(patchLines)
  {
    var tempHunk: seq<string> := [];
    var addedPatched: seq<string> := [];
    var addHunk := false;
    var insideHunk := false;
    for n := 0 to |patchLines|
      invariant Buffered(Kept(patchLines[..n]), addedPatched, tempHunk, addHunk, insideHunk)
    {
      WithoutStep(patchLines, n, Skipped);
      addedPatched, tempHunk, addHunk, insideHunk :=
        OmitLine(patchLines[n], addedPatched, tempHunk, addHunk, insideHunk, Kept(patchLines[..n]));
    }
    assert patchLines[..|patchLines|] == patchLines;
    if insideHunk && addHunk {
      addedPatched := addedPatched + tempHunk;
    } else {
      UnflushedDropped(Kept(patchLines), Opens, IsAddition, addedPatched, tempHunk);
    }
    r := Join("\n", addedPatched);
  }

  /** One pass of the loop in `omit_deletion_hunks`, on `line`. */
  method OmitLine(line: string, addedPatched: seq<string>, tempHunk: seq<string>, addHunk: bool, insideHunk: bool,
                  ghost k: seq<string>)
    returns (addedPatched': seq<string>, tempHunk': seq<string>, addHunk': bool, insideHunk': bool)
    requires Buffered(k, addedPatched, tempHunk, addHunk, insideHunk)
    ensures Buffered(k + (if Skipped(line) then [] else [line]), addedPatched', tempHunk', addHunk', insideHunk')
  {
    addedPatched', tempHunk', addHunk', insideHunk' := addedPatched, tempHunk, addHunk, insideHunk;
    AppendFacts(tempHunk, line, IsAddition);
    AppendFacts(k, line, Opens);
    if StartsWith(line, "@@") {
      HeaderNotAddition(line);
      var m := MatchHeader(line);
      if m.Some? {
        Regroup(addedPatched, tempHunk, line, k);
        AppendFacts([], line, IsAddition);
        if insideHunk && addHunk {
          addedPatched' := addedPatched + tempHunk;
          tempHunk' := [];
          addHunk' := false;
        } else if addHunk {
          SuffixHas(addedPatched, tempHunk, IsAddition);
          AppendFirstHeader(k, line, Opens, IsAddition);
        }
        tempHunk' := tempHunk' + [line];
        insideHunk' := true;
      } else {
        assert k + [] == k;
      }
    } else {
      Regroup(addedPatched, tempHunk, line, k);
      tempHunk' := tempHunk + [line];
      if line != [] {
        var editType := line[0];
        if editType == '+' {
          addHunk' := true;
        }
      }
      if IsAddition(line) && insideHunk {
        AdditionNotHeader(line);
        AppendAddition(k, line, Opens, IsAddition);
      } else if addHunk && insideHunk {
        AppendPlain(k, line, Opens, IsAddition);
      }
    }
  }

  // ----- what the loop promises -----

  /** Without any added line the function returns the empty string. */
  lemma {:induction false} NoAdditionOmitsAll(patchLines: seq<string>)
    requires forall i :: 0 <= i < |patchLines| ==> !IsAddition(patchLines[i])
    ensures Omitted(patchLines) == ""
  {
    var k := Kept(patchLines);
    var r := LongestClosedPrefix(k, Opens, IsAddition);
    forall i | 0 <= i < |r|
      ensures !IsAddition(r[i])
    {
      WithoutElements(patchLines, Skipped, i);
      assert r[i] == k[i];
    }
  }

  /** A trailing run of hunks without added lines is dropped, and everything before it kept. */
  lemma {:induction false} TrailingDeletionHunksDropped(a: seq<string>, t: seq<string>)
    requires Closed(a, Opens, IsAddition) && t != [] && Opens(t[0]) && !HasSome(t, IsAddition)
    ensures LongestClosedPrefix(a + t, Opens, IsAddition) == a
  {
    UnflushedDropped(a + t, Opens, IsAddition, a, t);
  }

  /**
   * Lines that start with a header and end with an added line are kept
   * whole, deletion-only hunks among them included: each buffer holding
   * such a hunk is flushed together with a later hunk's added line.
   */
  lemma {:induction false} EndingInAdditionKept(k: seq<string>)
    requires k != [] && Opens(k[0]) && IsAddition(k[|k| - 1])
    ensures LongestClosedPrefix(k, Opens, IsAddition) == k
  {
    AdditionNotHeader(k[|k| - 1]);
    ClosedEndingInAddition(k, Opens, IsAddition);
  }

  lemma {:induction false} ClosedEndingInAddition<T>(k: seq<T>, opens: T -> bool, adds: T -> bool)
    requires k != [] && opens(k[0]) && adds(k[|k| - 1]) && !opens(k[|k| - 1])
    ensures Closed(k, opens, adds)
  {
    var last := |k| - 1;
    forall i, j | 0 <= i < j < |k| && opens(k[i]) && opens(k[j])
      ensures exists p :: j < p < |k| && adds(k[p])
    {
      assert j < last && adds(k[last]);
    }
  }

  /** Filtering the filtered lines again changes nothing. */
  lemma {:induction false} OmitIdempotent(patchLines: seq<string>)
    ensures var o := LongestClosedPrefix(Kept(patchLines), Opens, IsAddition);
            LongestClosedPrefix(Kept(o), Opens, IsAddition) == o
  {
    var k := Kept(patchLines);
    var o := LongestClosedPrefix(k, Opens, IsAddition);
    forall i | 0 <= i < |o|
      ensures !Skipped(o[i])
    {
      WithoutElements(patchLines, Skipped, i);
      assert o[i] == k[i];
    }
    WithoutNothing(o, Skipped);
  }

  // ----- handle_patch_deletions -----

  /**
   * `handle_patch_deletions`: no patch (`None`) for a file without new content
   * whose edit type is "deleted" or unknown; otherwise the patch with its
   * deletion-only hunks omitted. The original content and the file name only
   * feed the log.
   */
  function HandlePatchDeletions(patch: string, originalFileContent: string, newFileContent: string,
                                fileName: string, editType: EditType): (r: Option<string>)
    ensures r.None? <==> newFileContent == [] && (editType == Deleted || editType == Unknown)
    ensures r.Some? ==> r.value == Omitted(SplitLines(patch))
  {
    if newFileContent == [] && (editType == Deleted || editType == Unknown) then None
    else
      var patchNew := Omitted(SplitLines(patch));
      if patch != patchNew then Some(patchNew) else Some(patch)
  }

  /** A modified file whose patch adds nothing yields the empty patch, not `None`. */
  lemma {:induction false} ModifiedWithoutAdditions(patch: string, original: string, newContent: string, fileName: string)
    requires forall i :: 0 <= i < |SplitLines(patch)| ==> !IsAddition(SplitLines(patch)[i])
    ensures HandlePatchDeletions(patch, original, newContent, fileName, Modified) == Some("")
  {
    NoAdditionOmitsAll(SplitLines(patch));
  }
}
