/**
 * The two line-numbered renderings of a patch:
 * `decouple_and_convert_to_hunks_with_lines_numbers`, which splits every hunk
 * into a numbered new view and, when it deletes anything, an old view; and
 * `extract_hunk_lines_from_patch`, which keeps the hunks that hold a given
 * line and selects the lines of a range.
 *
 * Both loops are specified by a step function over an explicit state and a
 * run over the first `n` lines; a header line the pattern rejects makes the
 * header parser raise `AttributeError`, which is the `Err` of the run.
 *
 * `Revision` selects between the code as written and the corrected rule for
 * the two discrepancies the model exhibits.
 */
module DualView {
  import opened Wrappers
  import opened Text
  import opened HunkHeaders
  import opened PrTypes

  datatype Revision = AsWritten | Corrected

  /** A "\ No newline at end of file" marker line, matched case-insensitively. */
  predicate IsNoNewlineMarker(line: string)
  {
    StartsWith(line, "\\") && Contains(Lower(line), "no newline at end of file")
  }

  predicate AnyStartsWith(lines: seq<string>, p: string)
  {
    exists i :: 0 <= i < |lines| && StartsWith(lines[i], p)
  }

  // ===== decouple_and_convert_to_hunks_with_lines_numbers =====

  /** The file argument: its name and, when it has the attribute, its edit type. */
  datatype FileRef = FileRef(filename: string, editType: Option<EditType>)

  function DeletedMessage(filename: string): string
  {
    "\n\n## File '" + Strip(filename) + "' was deleted\n"
  }

  function FileHeading(filename: string): string
  {
    "\n\n## File: '" + Strip(filename) + "'\n"
  }

  /** The last piece right-stripped, when it ends with a newline. */
  function TrimLast(out: seq<string>): (r: seq<string>)
    ensures |r| == |out|
  {
    if out != [] && EndsWith(out[|out| - 1], "\n") then out[..|out| - 1] + [RStrip(out[|out| - 1])] else out
  }

  /** The new view: each line after its number in the new file, counting from `start`. */
  function Numbered(lines: seq<string>, start: int): (r: seq<string>)
    ensures |r| == |lines|
  {
    seq(|lines|, i requires 0 <= i < |lines| => IntToString(start + i) + " " + lines[i] + "\n")
  }

  /** The old view: each line with a newline. */
  function Terminated(lines: seq<string>): (r: seq<string>)
    ensures |r| == |lines|
  {
    seq(|lines|, i requires 0 <= i < |lines| => lines[i] + "\n")
  }

  /** The pieces that close a hunk: the new view when it adds or deletes, then the old view when it deletes. */
  function CloseHunk(out: seq<string>, newLines: seq<string>, oldLines: seq<string>, start2: int): seq<string>
  {
    var isPlus := AnyStartsWith(newLines, "+");
    var isMinus := AnyStartsWith(oldLines, "-");
    var withNew := if isPlus || isMinus then TrimLast(out) + ["\n__new hunk__\n"] + Numbered(newLines, start2) else out;
    if isMinus then TrimLast(withNew) + ["\n__old hunk__\n"] + Terminated(oldLines) else withNew
  }

  /**
   * The loop's variables: the pieces so far, the new and old lines of the open
   * hunk, the header of the last flushed-to hunk and of the last header line,
   * whether a header matched, and the new start of the open hunk.
   */
  datatype DState = DState(out: seq<string>, newLines: seq<string>, oldLines: seq<string>,
                           prevHeader: string, header: string, matched: bool, start2: int)

  function DInitial(file: Option<FileRef>): DState
  {
    DState(if file.Some? then [FileHeading(file.value.filename)] else [], [], [], "", "", false, -1)
  }

  /** An empty line, not the first, that comes last or right before an "@@" line. */
  predicate SkippedBlank(lines: seq<string>, i: nat)
    requires i < |lines|
  {
    lines[i] == [] && i != 0 && ((i + 1 < |lines| && StartsWith(lines[i + 1], "@@")) || i + 1 == |lines|)
  }

  /** The state after a header closes the open hunk, if it holds any line. */
  function Flushed(st: DState): DState
  {
    if st.newLines != [] || st.oldLines != [] then
      st.(out := CloseHunk(st.out + (if st.prevHeader != [] then ["\n" + st.prevHeader + "\n"] else []),
                           st.newLines, st.oldLines, st.start2),
          newLines := [], oldLines := [])
    else st
  }

  /** One pass of the loop, on line `i`. */
  function DStep(lines: seq<string>, i: nat, st: DState): Result<DState>
    requires i < |lines|
  {
    var line := lines[i];
    if IsNoNewlineMarker(line) then Ok(st)
    else if StartsWith(line, "@@") then
      match MatchHeader(line)
      case None => Err(AttributeError)
      case Some(m) => Ok(Flushed(st).(prevHeader := line, header := line, matched := true,
                                       start2 := ExtractHunkHeaders(m).start2))
    else if StartsWith(line, "+") then Ok(st.(newLines := st.newLines + [line]))
    else if StartsWith(line, "-") then Ok(st.(oldLines := st.oldLines + [line]))
    else if SkippedBlank(lines, i) then Ok(st)
    else Ok(st.(newLines := st.newLines + [line], oldLines := st.oldLines + [line]))
  }

  /** The loop over the first `n` lines; the first error ends it. */
  function DRun(lines: seq<string>, init: DState, n: nat): Result<DState>
    requires n <= |lines|
  {
    if n == 0 then Ok(init)
    else match DRun(lines, init, n - 1)
      case Err(e) => Err(e)
      case Ok(st) => DStep(lines, n - 1, st)
  }

  /**
   * The last hunk, once the loop is over. As written it is shown only when it
   * has new-side lines; the corrected rule also shows a hunk that only deletes.
   */
  function DFinish(st: DState, rev: Revision): seq<string>
  {
    if st.matched && (st.newLines != [] || (rev == Corrected && st.oldLines != [])) then
      CloseHunk(st.out + ["\n" + st.header + "\n"], st.newLines, st.oldLines, st.start2)
    else st.out
  }

  /**
   * `decouple_and_convert_to_hunks_with_lines_numbers` on already split lines:
   * a deleted file is one message; otherwise the right-stripped rendering.
   */
  function DecoupleLines(lines: seq<string>, file: Option<FileRef>, rev: Revision): (r: Result<string>)
    ensures file.Some? && file.value.editType == Some(Deleted) ==> r == Ok(DeletedMessage(file.value.filename))
    ensures !(file.Some? && file.value.editType == Some(Deleted)) && r.Ok? ==> RightStripped(r.value)
  {
    if file.Some? && file.value.editType == Some(Deleted) then Ok(DeletedMessage(file.value.filename))
    else match DRun(lines, DInitial(file), |lines|)
      case Err(e) => Err(e)
      case Ok(st) =>
        RStripIsRightStripped(Concat(DFinish(st, rev)));
        Ok(RStrip(Concat(DFinish(st, rev))))
  }

  function Decouple(patch: string, file: Option<FileRef>, rev: Revision): Result<string>
  {
    DecoupleLines(SplitLines(patch), file, rev)
  }

  /** Appending the pieces of a closed hunk: the new view, then the old view. */
  method AppendHunk(out: seq<string>, newLines: seq<string>, oldLines: seq<string>, start2: int)
    returns (r: seq<string>)
    ensures r == CloseHunk(out, newLines, oldLines, start2)
  {
    var isPlus := false;
    var isMinus := false;
    if newLines != [] {
      isPlus := AnyStartsWith(newLines, "+");
    }
    if oldLines != [] {
      isMinus := AnyStartsWith(oldLines, "-");
    }
    r := out;
    if isPlus || isMinus {
      r := AppendNewView(r, newLines, start2);
    }
    if isMinus {
      r := AppendOldView(r, oldLines);
    }
  }

  /** The new view, after trimming the piece before it. */
  method AppendNewView(out: seq<string>, newLines: seq<string>, start2: int) returns (r: seq<string>)
    ensures r == TrimLast(out) + ["\n__new hunk__\n"] + Numbered(newLines, start2)
  {
    r := out;
    if r != [] && EndsWith(r[|r| - 1], "\n") {
      r := r[..|r| - 1] + [RStrip(r[|r| - 1])];
    }
    r := r + ["\n__new hunk__\n"];
    ghost var base := r;
    for i := 0 to |newLines|
      invariant r == base + Numbered(newLines[..i], start2)
    {
      NumberedSnoc(newLines, start2, i);
      r := r + [IntToString(start2 + i) + " " + newLines[i] + "\n"];
    }
    assert newLines[..|newLines|] == newLines;
  }

  /** The old view, after trimming the piece before it. */
  method AppendOldView(out: seq<string>, oldLines: seq<string>) returns (r: seq<string>)
    ensures r == TrimLast(out) + ["\n__old hunk__\n"] + Terminated(oldLines)
  {
    r := out;
    if r != [] && EndsWith(r[|r| - 1], "\n") {
      r := r[..|r| - 1] + [RStrip(r[|r| - 1])];
    }
    r := r + ["\n__old hunk__\n"];
    ghost var base := r;
    for i := 0 to |oldLines|
      invariant r == base + Terminated(oldLines[..i])
    {
      TerminatedSnoc(oldLines, i);
      r := r + [oldLines[i] + "\n"];
    }
    assert oldLines[..|oldLines|] == oldLines;
  }

  lemma NumberedSnoc(lines: seq<string>, start: int, i: nat)
    requires i < |lines|
    ensures Numbered(lines[..i + 1], start) == Numbered(lines[..i], start) + [IntToString(start + i) + " " + lines[i] + "\n"]
  {
    var a := Numbered(lines[..i + 1], start);
    var b := Numbered(lines[..i], start) + [IntToString(start + i) + " " + lines[i] + "\n"];
    forall k | 0 <= k < |a|
      ensures a[k] == b[k]
    {
      assert lines[..i + 1][k] == lines[k];
      if k < i {
        assert lines[..i][k] == lines[k];
      }
    }
  }

  lemma TerminatedSnoc(lines: seq<string>, i: nat)
    requires i < |lines|
    ensures Terminated(lines[..i + 1]) == Terminated(lines[..i]) + [lines[i] + "\n"]
  {
    var a := Terminated(lines[..i + 1]);
    var b := Terminated(lines[..i]) + [lines[i] + "\n"];
    forall k | 0 <= k < |a|
      ensures a[k] == b[k]
    {
      assert lines[..i + 1][k] == lines[k];
      if k < i {
        assert lines[..i][k] == lines[k];
      }
    }
  }

  /**
   * `decouple_and_convert_to_hunks_with_lines_numbers` in revision `rev`; the
   * loop's variables are carried in one `DState`.
   */
  method DecoupleAndConvert(patch: string, file: Option<FileRef>, rev: Revision) returns (r: Result<string>)
    ensures r == Decouple(patch, file, rev)
  {
    if file.Some? && file.value.editType == Some(Deleted) {
      return Ok(DeletedMessage(file.value.filename));
    }
    var patchLines := SplitLines(patch);
    var st := DInitial(file);
    for lineI := 0 to |patchLines|
      invariant DRun(patchLines, DInitial(file), lineI) == Ok(st)
    {
      var next := DecoupleLine(patchLines, lineI, st);
      if next.Err? {
        DRunErrSticky(patchLines, DInitial(file), lineI + 1, |patchLines|);
        return Err(next.error);
      }
      st := next.value;
    }
    var patchWithLinesList := st.out;
    if st.matched && (st.newLines != [] || (rev == Corrected && st.oldLines != [])) {
      patchWithLinesList := patchWithLinesList + ["\n" + st.header + "\n"];
      patchWithLinesList := AppendHunk(patchWithLinesList, st.newLines, st.oldLines, st.start2);
    }
    r := Ok(RStrip(Concat(patchWithLinesList)));
  }

  /** Closing the open hunk when a new header comes. */
  method FlushHunk(st: DState) returns (r: DState)
    ensures r == Flushed(st)
  {
    r := st;
    if st.newLines != [] || st.oldLines != [] {
      var patchWithLinesList := st.out;
      if st.prevHeader != [] {
        patchWithLinesList := patchWithLinesList + ["\n" + st.prevHeader + "\n"];
      }
      assert patchWithLinesList == st.out + (if st.prevHeader != [] then ["\n" + st.prevHeader + "\n"] else []);
      patchWithLinesList := AppendHunk(patchWithLinesList, st.newLines, st.oldLines, st.start2);
      r := st.(out := patchWithLinesList, newLines := [], oldLines := []);
    }
  }

  /** One pass of the loop over the patch lines. */
  method DecoupleLine(patchLines: seq<string>, lineI: nat, st: DState) returns (r: Result<DState>)
    requires lineI < |patchLines|
    ensures r == DStep(patchLines, lineI, st)
  {
    var line := patchLines[lineI];
    if StartsWith(line, "\\") && Contains(Lower(line), "no newline at end of file") {
      return Ok(st);
    }
    if StartsWith(line, "@@") {
      var m := MatchHeader(line);
      var flushed := st;
      if m.Some? {
        flushed := FlushHunk(st);
      }
      if m.None? {
        return Err(AttributeError);
      }
      var h := ExtractHunkHeaders(m.value);
      return Ok(flushed.(prevHeader := line, header := line, matched := true, start2 := h.start2));
    } else if StartsWith(line, "+") {
      return Ok(st.(newLines := st.newLines + [line]));
    } else if StartsWith(line, "-") {
      return Ok(st.(oldLines := st.oldLines + [line]));
    } else if line == [] && lineI != 0 {
      if lineI + 1 < |patchLines| && StartsWith(patchLines[lineI + 1], "@@") {
        return Ok(st);
      } else if lineI + 1 == |patchLines| {
        return Ok(st);
      }
    }
    return Ok(st.(newLines := st.newLines + [line], oldLines := st.oldLines + [line]));
  }

  /** Once the loop has failed it stays failed. */
  lemma {:induction false} DRunErrSticky(lines: seq<string>, init: DState, i: nat, n: nat)
    requires i <= n <= |lines| && DRun(lines, init, i).Err?
    ensures DRun(lines, init, n) == DRun(lines, init, i)
    decreases n
  {
    if n > i {
      DRunErrSticky(lines, init, i, n - 1);
    }
  }

  // ----- what the rendering promises -----

  /** A "no newline" marker leaves the state as it is. */
  lemma MarkerIgnored(lines: seq<string>, i: nat, st: DState)
    requires i < |lines| && IsNoNewlineMarker(lines[i])
    ensures DStep(lines, i, st) == Ok(st)
  {
  }

  /** A header line the pattern rejects makes the whole conversion fail. */
  lemma {:induction false} UnmatchedHeaderFails(lines: seq<string>, file: Option<FileRef>, rev: Revision, i: nat)
    requires i < |lines| && StartsWith(lines[i], "@@") && MatchHeader(lines[i]).None?
    requires !(file.Some? && file.value.editType == Some(Deleted))
    ensures DecoupleLines(lines, file, rev) == Err(AttributeError)
  {
    var init := DInitial(file);
    assert !IsNoNewlineMarker(lines[i]) by { assert lines[i][..1] == lines[i][..2][..1]; }
    if DRun(lines, init, i).Ok? {
      assert DRun(lines, init, i + 1) == Err(AttributeError);
      DRunErrSticky(lines, init, i + 1, |lines|);
    } else {
      DRunErrSticky(lines, init, i, |lines|);
      DRunFirstErr(lines, init, i);
    }
  }

  /** The only error the loop produces is the header parser's. */
  lemma {:induction false} DRunFirstErr(lines: seq<string>, init: DState, n: nat)
    requires n <= |lines| && DRun(lines, init, n).Err?
    ensures DRun(lines, init, n) == Err(AttributeError)
  {
    if n > 0 && DRun(lines, init, n - 1).Err? {
      DRunFirstErr(lines, init, n - 1);
    }
  }

  /** Buffered lines are lines of the patch; the new side never holds a '-' line, the old side never a '+' line. */
  predicate CleanBuffers(st: DState)
  {
    && (forall k :: 0 <= k < |st.newLines| ==> !StartsWith(st.newLines[k], "-") && NoBreaks(st.newLines[k]))
    && (forall k :: 0 <= k < |st.oldLines| ==> !StartsWith(st.oldLines[k], "+") && NoBreaks(st.oldLines[k]))
  }

  lemma {:induction false} DRunCleanBuffers(lines: seq<string>, file: Option<FileRef>, n: nat)
    requires n <= |lines| && forall k :: 0 <= k < |lines| ==> NoBreaks(lines[k])
    requires DRun(lines, DInitial(file), n).Ok?
    ensures CleanBuffers(DRun(lines, DInitial(file), n).value)
  {
    if n > 0 {
      DRunFirstOk(lines, DInitial(file), n);
      DRunCleanBuffers(lines, file, n - 1);
      var st := DRun(lines, DInitial(file), n - 1).value;
      var line := lines[n - 1];
      if !IsNoNewlineMarker(line) && !StartsWith(line, "@@") {
        if StartsWith(line, "+") {
          PlusNotMinus(line);
        } else if StartsWith(line, "-") {
          PlusNotMinus(line);
        }
      }
    }
  }

  lemma {:induction false} DRunFirstOk(lines: seq<string>, init: DState, n: nat)
    requires 0 < n <= |lines| && DRun(lines, init, n).Ok?
    ensures DRun(lines, init, n - 1).Ok?
  {
  }

  lemma PlusNotMinus(line: string)
    ensures StartsWith(line, "+") ==> !StartsWith(line, "-")
  {
    if StartsWith(line, "+") {
      assert line[..1] == "+";
    }
  }

  /** A decimal rendering never starts with a newline. */
  lemma IntToStringHead(i: int)
    ensures IntToString(i) != [] && IntToString(i)[0] != '\n'
  {
    if i < 0 {
      assert IntToString(i)[0] == '-';
    } else {
      assert IsDigit(NatToString(i)[0]);
    }
  }

  /**
   * For lines without line breaks, closing a hunk adds nothing unless the hunk
   * adds or deletes a line, and adds the old view exactly when it deletes one.
   */
  lemma {:induction false} CloseHunkViews(out: seq<string>, newLines: seq<string>, oldLines: seq<string>, start2: int)
    requires forall k :: 0 <= k < |newLines| ==> NoBreaks(newLines[k])
    requires forall k :: 0 <= k < |oldLines| ==> NoBreaks(oldLines[k])
    ensures |CloseHunk(out, newLines, oldLines, start2)| >= |out|
    ensures var added := CloseHunk(out, newLines, oldLines, start2)[|out|..];
            && (added != [] <==> AnyStartsWith(newLines, "+") || AnyStartsWith(oldLines, "-"))
            && ("\n__old hunk__\n" in added <==> AnyStartsWith(oldLines, "-"))
  {
    var isPlus := AnyStartsWith(newLines, "+");
    var isMinus := AnyStartsWith(oldLines, "-");
    var num := Numbered(newLines, start2);
    var term := Terminated(oldLines);
    NoMarkerPieces(newLines, oldLines, start2);
    var c := CloseHunk(out, newLines, oldLines, start2);
    if isPlus || isMinus {
      var withNew := TrimLast(out) + ["\n__new hunk__\n"] + num;
      assert withNew[|out|..] == ["\n__new hunk__\n"] + num;
      if isMinus {
        var t := TrimLast(withNew);
        assert c == t + ["\n__old hunk__\n"] + term;
        assert c[|out|..][|withNew| - |out|] == "\n__old hunk__\n";
      } else {
        assert c == withNew;
        assert c[|out|..] == ["\n__new hunk__\n"] + num;
        assert "\n__old hunk__\n" !in c[|out|..] by {
          forall k | 0 <= k < |num| ensures num[k] != "\n__old hunk__\n" { }
        }
      }
    } else {
      assert c == out;
    }
  }

  /** No numbered or terminated piece of break-free lines is one of the view markers. */
  lemma NoMarkerPieces(newLines: seq<string>, oldLines: seq<string>, start2: int)
    requires forall k :: 0 <= k < |newLines| ==> NoBreaks(newLines[k])
    requires forall k :: 0 <= k < |oldLines| ==> NoBreaks(oldLines[k])
    ensures forall k :: 0 <= k < |newLines| ==> Numbered(newLines, start2)[k] != "\n__old hunk__\n"
    ensures forall k :: 0 <= k < |oldLines| ==> Terminated(oldLines)[k] != "\n__old hunk__\n"
  {
    var num := Numbered(newLines, start2);
    var term := Terminated(oldLines);
    forall k | 0 <= k < |newLines|
      ensures num[k] != "\n__old hunk__\n"
    {
      IntToStringHead(start2 + k);
      assert num[k][0] == IntToString(start2 + k)[0];
    }
    forall k | 0 <= k < |oldLines|
      ensures term[k] != "\n__old hunk__\n"
    {
      assert term[k] == oldLines[k] + "\n";
      if |oldLines[k]| >= 1 {
        assert oldLines[k][0] == term[k][0];
        assert !IsLineBreak(oldLines[k][0]);
      } else {
        assert |term[k]| == 1;
      }
    }
  }

  // ----- the last hunk of the patch -----

  lemma HeaderNotMarker(line: string)
    requires StartsWith(line, "@@") || StartsWith(line, "-")
    ensures !IsNoNewlineMarker(line)
  {
    assert line[..1] == line[..|line|][..1];
  }

  /**
   * As written, a patch whose last hunk only deletes lines loses that hunk:
   * the header and one deleted line render as nothing at all.
   */
  lemma {:induction false} TrailingDeletionHunkDropped(h: string, d: string)
    requires StartsWith(h, "@@") && MatchHeader(h).Some? && StartsWith(d, "-")
    ensures DRun([h, d], DInitial(None), 2).Ok?
    ensures var st := DRun([h, d], DInitial(None), 2).value;
            && st.matched && AnyStartsWith(st.oldLines, "-")
            && DecoupleLines([h, d], None, AsWritten) == Ok("")
  {
    var lines := [h, d];
    HeaderNotMarker(h);
    HeaderNotMarker(d);
    assert !StartsWith(d, "@@") && !StartsWith(d, "+") by {
      assert d[..1] == "-";
    }
    var st1 := DInitial(None).(prevHeader := h, header := h, matched := true,
                                start2 := ExtractHunkHeaders(MatchHeader(h).value).start2);
    assert lines[0] == h;
    assert Flushed(DInitial(None)) == DInitial(None);
    assert DStep(lines, 0, DInitial(None)) == Ok(st1);
    assert DRun(lines, DInitial(None), 1) == Ok(st1);
    var st2 := st1.(oldLines := [d]);
    assert lines[1] == d;
    assert st1.oldLines + [d] == [d];
    assert DStep(lines, 1, st1) == Ok(st2);
    assert DRun(lines, DInitial(None), 2) == Ok(st2);
    assert StartsWith(st2.oldLines[0], "-");
    assert DFinish(st2, AsWritten) == [];
    RStripCharsSpec([], Whitespace);
  }

  /**
   * With the corrected rule, a last hunk that deletes a line is rendered with
   * its old view.
   */
  lemma {:induction false} TrailingDeletionHunkShown(lines: seq<string>, file: Option<FileRef>)
    requires forall k :: 0 <= k < |lines| ==> NoBreaks(lines[k])
    requires DRun(lines, DInitial(file), |lines|).Ok?
    requires var st := DRun(lines, DInitial(file), |lines|).value;
             st.matched && AnyStartsWith(st.oldLines, "-")
    ensures "\n__old hunk__\n" in DFinish(DRun(lines, DInitial(file), |lines|).value, Corrected)
  {
    var st := DRun(lines, DInitial(file), |lines|).value;
    DRunCleanBuffers(lines, file, |lines|);
    var pre := st.out + ["\n" + st.header + "\n"];
    CloseHunkViews(pre, st.newLines, st.oldLines, st.start2);
    var c := CloseHunk(pre, st.newLines, st.oldLines, st.start2);
    assert DFinish(st, Corrected) == c;
    var k :| 0 <= k < |c[|pre|..]| && c[|pre|..][k] == "\n__old hunk__\n";
    assert c[|pre| + k] == "\n__old hunk__\n";
  }

  // ===== extract_hunk_lines_from_patch =====

  /** The asked-about lines: a range of line numbers on one side of the diff, the side already lower-cased. */
  datatype LineQuery = LineQuery(lineStart: int, lineEnd: int, side: string)

  /**
   * The loop's variables: the pieces of the rendered hunks, the selected
   * lines, the current hunk's header numbers, whether the hunk is skipped and
   * how many of its lines count towards the line number.
   */
  datatype XState = XState(out: seq<string>, selected: seq<string>,
                           start1: int, size1: int, start2: int, size2: int,
                           skipHunk: bool, num: int)

  function XInitial(fileName: string): XState
  {
    XState(["\n\n## File: '" + Strip(fileName) + "'\n\n"], [], -1, -1, -1, -1, false, 0)
  }

  /** Whether the hunk of header `h` holds the queried start line on the queried side. */
  predicate HoldsStart(h: Hunk, q: LineQuery)
  {
    && (q.side == "left" ==> h.start1 <= q.lineStart <= h.start1 + h.size1)
    && (q.side == "right" ==> h.start2 <= q.lineStart <= h.start2 + h.size2)
  }

  /**
   * Whether a body line, `st.num` counted lines into its hunk, is selected. As
   * written the left side compares the hunk start with itself; the corrected
   * rule compares with the queried start line, as the right side does.
   */
  predicate Selected(st: XState, q: LineQuery, rev: Revision)
  {
    || (q.side == "right" && q.lineStart <= st.start2 + st.num <= q.lineEnd)
    || (q.side == "left" && rev == AsWritten && st.start1 <= st.num + st.start1 <= q.lineEnd)
    || (q.side == "left" && rev == Corrected && q.lineStart <= st.start1 + st.num <= q.lineEnd)
  }

  /** One pass of the loop, on line `i`. */
  function XStep(lines: seq<string>, i: nat, st: XState, q: LineQuery, rev: Revision): Result<XState>
    requires i < |lines|
  {
    var line := lines[i];
    if IsNoNewlineMarker(line) then Ok(st)
    else if StartsWith(line, "@@") then
      match MatchHeader(line)
      case None => Err(AttributeError)
      case Some(m) =>
        var h := ExtractHunkHeaders(m);
        var started := st.(skipHunk := false, num := 0, start1 := h.start1, size1 := h.size1,
                          start2 := h.start2, size2 := h.size2);
        if HoldsStart(h, q) then Ok(started.(out := st.out + ["\n" + line + "\n"]))
        else Ok(started.(skipHunk := true))
    else if !st.skipHunk then
      var nl := line + "\n";
      Ok(st.(selected := st.selected + (if Selected(st, q, rev) then [nl] else []),
             out := st.out + [nl],
             num := if StartsWith(line, "-") then st.num else st.num + 1))
    else Ok(st)
  }

  function XRun(lines: seq<string>, init: XState, q: LineQuery, rev: Revision, n: nat): Result<XState>
    requires n <= |lines|
  {
    if n == 0 then Ok(init)
    else match XRun(lines, init, q, rev, n - 1)
      case Err(e) => Err(e)
      case Ok(st) => XStep(lines, n - 1, st, q, rev)
  }

  /**
   * `extract_hunk_lines_from_patch`: the rendered hunks that hold the start
   * line and the selected lines, both right-stripped when asked; any failure
   * gives two empty strings.
   */
  function ExtractHunkLines(patch: string, fileName: string, lineStart: int, lineEnd: int, side: string,
                            removeTrailingChars: bool, rev: Revision): (r: (string, string))
    ensures removeTrailingChars ==> RightStripped(r.0) && RightStripped(r.1)
  {
    var lines := SplitLines(patch);
    match XRun(lines, XInitial(fileName), LineQuery(lineStart, lineEnd, Lower(side)), rev, |lines|)
    case Err(_) => ("", "")
    case Ok(st) =>
      var patchWithLines := Concat(st.out);
      var selectedLines := Concat(st.selected);
      RStripIsRightStripped(patchWithLines);
      RStripIsRightStripped(selectedLines);
      if removeTrailingChars then (RStrip(patchWithLines), RStrip(selectedLines)) else (patchWithLines, selectedLines)
  }

  /** `extract_hunk_lines_from_patch`, as written. */
  method ExtractHunkLinesFromPatch(patch: string, fileName: string, lineStart: int, lineEnd: int, side: string,
                                   removeTrailingChars: bool)
    returns (patchWithLines: string, selectedLines: string)
    ensures (patchWithLines, selectedLines)
            == ExtractHunkLines(patch, fileName, lineStart, lineEnd, side, removeTrailingChars, AsWritten)
  {
    var patchLines := SplitLines(patch);
    var q := LineQuery(lineStart, lineEnd, Lower(side));
    var st := XInitial(fileName);
    for n := 0 to |patchLines|
      invariant XRun(patchLines, XInitial(fileName), q, AsWritten, n) == Ok(st)
    {
      var next := ExtractLine(patchLines, n, st, q);
      if next.Err? {
        XRunErrSticky(patchLines, XInitial(fileName), q, AsWritten, n + 1, |patchLines|);
        return "", "";
      }
      st := next.value;
    }
    patchWithLines := Concat(st.out);
    selectedLines := Concat(st.selected);
    if removeTrailingChars {
      patchWithLines := RStrip(patchWithLines);
      selectedLines := RStrip(selectedLines);
    }
  }

  /** One pass of the loop over the patch lines. */
  method ExtractLine(patchLines: seq<string>, n: nat, st: XState, q: LineQuery) returns (r: Result<XState>)
    requires n < |patchLines|
    ensures r == XStep(patchLines, n, st, q, AsWritten)
  {
    var line := patchLines[n];
    if StartsWith(line, "\\") && Contains(Lower(line), "no newline at end of file") {
      return Ok(st);
    }
    if StartsWith(line, "@@") {
      var m := MatchHeader(line);
      if m.None? {
        return Err(AttributeError);
      }
      var h := ExtractHunkHeaders(m.value);
      var next := st.(skipHunk := false, num := 0, start1 := h.start1, size1 := h.size1,
                      start2 := h.start2, size2 := h.size2);
      if q.side == "left" {
        if !(next.start1 <= q.lineStart <= next.start1 + next.size1) {
          return Ok(next.(skipHunk := true));
        }
      } else if q.side == "right" {
        if !(next.start2 <= q.lineStart <= next.start2 + next.size2) {
          return Ok(next.(skipHunk := true));
        }
      }
      return Ok(next.(out := next.out + ["\n" + line + "\n"]));
    } else if !st.skipHunk {
      var lineNl := line + "\n";
      var selected := st.selected;
      if q.side == "right" && q.lineStart <= st.start2 + st.num <= q.lineEnd {
        selected := selected + [lineNl];
      }
      if q.side == "left" && st.start1 <= st.num + st.start1 <= q.lineEnd {
        selected := selected + [lineNl];
      }
      assert selected == st.selected + (if Selected(st, q, AsWritten) then [lineNl] else []);
      var num := st.num;
      if !StartsWith(line, "-") {
        num := num + 1;
      }
      return Ok(st.(selected := selected, out := st.out + [lineNl], num := num));
    }
    return Ok(st);
  }

  lemma {:induction false} XRunErrSticky(lines: seq<string>, init: XState, q: LineQuery, rev: Revision, i: nat, n: nat)
    requires i <= n <= |lines| && XRun(lines, init, q, rev, i).Err?
    ensures XRun(lines, init, q, rev, n) == XRun(lines, init, q, rev, i)
    decreases n
  {
    if n > i {
      XRunErrSticky(lines, init, q, rev, i, n - 1);
    }
  }

  // ----- what the extraction promises -----

  /** A header line the pattern rejects turns the whole answer into two empty strings. */
  lemma {:induction false} UnmatchedHeaderGivesEmpty(patch: string, fileName: string, lineStart: int, lineEnd: int,
                                                     side: string, removeTrailingChars: bool, rev: Revision, i: nat)
    requires i < |SplitLines(patch)|
    requires StartsWith(SplitLines(patch)[i], "@@") && MatchHeader(SplitLines(patch)[i]).None?
    ensures ExtractHunkLines(patch, fileName, lineStart, lineEnd, side, removeTrailingChars, rev) == ("", "")
  {
    var lines := SplitLines(patch);
    var q := LineQuery(lineStart, lineEnd, Lower(side));
    var init := XInitial(fileName);
    HeaderNotMarker(lines[i]);
    if XRun(lines, init, q, rev, i).Ok? {
      assert XRun(lines, init, q, rev, i + 1).Err?;
      XRunErrSticky(lines, init, q, rev, i + 1, |lines|);
    } else {
      XRunErrSticky(lines, init, q, rev, i, |lines|);
    }
  }

  /**
   * A header opens its hunk: the count restarts, and the hunk is skipped
   * exactly when, on the queried side, it does not hold the start line; only
   * a kept hunk's header is rendered.
   */
  lemma HeaderOpensHunk(lines: seq<string>, i: nat, st: XState, q: LineQuery, rev: Revision)
    requires i < |lines| && StartsWith(lines[i], "@@") && MatchHeader(lines[i]).Some?
    ensures XStep(lines, i, st, q, rev).Ok?
    ensures var h := ExtractHunkHeaders(MatchHeader(lines[i]).value);
            var next := XStep(lines, i, st, q, rev).value;
            && next.num == 0 && next.start1 == h.start1 && next.start2 == h.start2
            && next.selected == st.selected
            && (next.skipHunk <==> (q.side == "left" && !(h.start1 <= q.lineStart <= h.start1 + h.size1))
                                   || (q.side == "right" && !(h.start2 <= q.lineStart <= h.start2 + h.size2)))
            && (next.skipHunk ==> next.out == st.out)
            && (!next.skipHunk ==> next.out == st.out + ["\n" + lines[i] + "\n"])
  {
    HeaderNotMarker(lines[i]);
  }

  /** The lines of `lines[a..b]` that count towards the line number: neither markers nor deletions. */
  function CountNew(lines: seq<string>, a: nat, b: nat): (r: nat)
    requires a <= b <= |lines|
    ensures r <= b - a
    decreases b - a
  {
    if a == b then 0
    else CountNew(lines, a, b - 1) + (if IsNoNewlineMarker(lines[b - 1]) || StartsWith(lines[b - 1], "-") then 0 else 1)
  }

  /**
   * Within one hunk the count is the number of earlier lines of the hunk that
   * are not deletions, and a skipped hunk stays skipped with nothing rendered.
   */
  lemma {:induction false} XRunInHunk(lines: seq<string>, init: XState, q: LineQuery, rev: Revision, hd: nat, n: nat)
    requires hd < n <= |lines| && StartsWith(lines[hd], "@@")
    requires forall k :: hd < k < n ==> !StartsWith(lines[k], "@@")
    requires XRun(lines, init, q, rev, n).Ok?
    ensures XRun(lines, init, q, rev, hd + 1).Ok?
    ensures var open := XRun(lines, init, q, rev, hd + 1).value;
            var st := XRun(lines, init, q, rev, n).value;
            && st.skipHunk == open.skipHunk && st.start1 == open.start1 && st.start2 == open.start2
            && (st.skipHunk ==> st.out == open.out && st.selected == open.selected)
            && (!st.skipHunk ==> st.num == CountNew(lines, hd + 1, n))
    decreases n
  {
    if n > hd + 1 {
      assert XRun(lines, init, q, rev, n - 1).Ok?;
      XRunInHunk(lines, init, q, rev, hd, n - 1);
      var st := XRun(lines, init, q, rev, n - 1).value;
      if !IsNoNewlineMarker(lines[n - 1]) && !st.skipHunk {
        assert !StartsWith(lines[n - 1], "@@");
      }
    } else {
      HeaderNotMarker(lines[hd]);
      assert XRun(lines, init, q, rev, hd).Ok?;
    }
  }

  /**
   * On the right side, a line of a kept hunk is selected exactly when its
   * new-file number (the hunk's new start plus the earlier lines that are not
   * deletions) lies in the queried range.
   */
  lemma {:induction false} RightSelection(lines: seq<string>, init: XState, q: LineQuery, rev: Revision, hd: nat, n: nat)
    requires hd < n < |lines| && StartsWith(lines[hd], "@@")
    requires forall k :: hd < k <= n ==> !StartsWith(lines[k], "@@")
    requires !IsNoNewlineMarker(lines[n]) && q.side == "right"
    requires XRun(lines, init, q, rev, n + 1).Ok?
    ensures XRun(lines, init, q, rev, n).Ok?
    ensures var st := XRun(lines, init, q, rev, n).value;
            var next := XRun(lines, init, q, rev, n + 1).value;
            !st.skipHunk ==>
              (next.selected == st.selected + [lines[n] + "\n"]
               <==> q.lineStart <= st.start2 + CountNew(lines, hd + 1, n) <= q.lineEnd)
  {
    assert XRun(lines, init, q, rev, n).Ok?;
    XRunInHunk(lines, init, q, rev, hd, n);
  }

  /**
   * With the corrected rule, on the left side a line of a kept hunk is
   * selected exactly when the hunk's old start plus its count lies in the
   * queried range.
   */
  lemma {:induction false} LeftSelectionCorrected(lines: seq<string>, init: XState, q: LineQuery, hd: nat, n: nat)
    requires hd < n < |lines| && StartsWith(lines[hd], "@@")
    requires forall k :: hd < k <= n ==> !StartsWith(lines[k], "@@")
    requires !IsNoNewlineMarker(lines[n]) && q.side == "left"
    requires XRun(lines, init, q, Corrected, n + 1).Ok?
    ensures XRun(lines, init, q, Corrected, n).Ok?
    ensures var st := XRun(lines, init, q, Corrected, n).value;
            var next := XRun(lines, init, q, Corrected, n + 1).value;
            !st.skipHunk ==>
              (next.selected == st.selected + [lines[n] + "\n"]
               <==> q.lineStart <= st.start1 + CountNew(lines, hd + 1, n) <= q.lineEnd)
  {
    assert XRun(lines, init, q, Corrected, n).Ok?;
    XRunInHunk(lines, init, q, Corrected, hd, n);
  }

  /**
   * As written, on the left side the first line of a kept hunk is selected
   * whenever the hunk starts at or before the range's end, even when it lies
   * before the range's start: hunk "@@ -9,5 +9,5 @@", lines 10 to 12.
   */
  lemma LeftSelectionIgnoresStart(lines: seq<string>, n: nat, st: XState)
    requires n < |lines| && !IsNoNewlineMarker(lines[n]) && !StartsWith(lines[n], "@@")
    requires !st.skipHunk && st.num == 0 && st.start1 == 9 && st.size1 == 5
    ensures var q := LineQuery(10, 12, "left");
            && HoldsStart(Hunk(9, 5, 9, 5, ""), q)
            && st.start1 + st.num < q.lineStart
            && XStep(lines, n, st, q, AsWritten).value.selected == st.selected + [lines[n] + "\n"]
            && XStep(lines, n, st, q, Corrected).value.selected == st.selected
  {
  }
}
