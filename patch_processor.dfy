/**
 * Widening the hunks of a unified diff with context lines taken from the
 * original (and, when known, the new) file.
 *
 * The repository carries two copies of the processor. They behave the same
 * except in the validity check run on every hunk header: in one an exception
 * inside the check leaves the hunk valid, in the other it makes the hunk
 * invalid, and the other also remembers the text encoding that last
 * reconciled a mismatching line. `Variant` says which copy is modelled.
 *
 * The pure part (context limits, the extension of one hunk, one step of the
 * line loop) is written as functions; `PatchProcessor` is the class whose
 * methods update its fields as the source does, each proved to follow those
 * functions.
 */
module PatchProcessing {
  import opened Wrappers
  import opened Text
  import opened HunkHeaders

  /** The fallback encodings, tried in this order. */
  datatype Encoding = Iso88591 | Latin1 | Ascii | Utf16

  const Encodings: seq<Encoding> := [Iso88591, Latin1, Ascii, Utf16]

  /** Which copy of the processor: the one `extend_patch` uses, or the one with the cached encoding. */
  datatype Variant = GitPatchProcessing | CachedEncoding

  /**
   * `s.encode(e).decode()`: the oracle re-reading a line through a fallback
   * encoding; None where Python raises.
   */
  type Recoder = (Encoding, string) -> Option<string>

  datatype Settings = Settings(before: int, after: int, allowDynamic: bool, beforeDynamic: int)

  /** What a processor reads but never changes. */
  datatype Input = Input(variant: Variant, patchLines: seq<string>, originalLines: seq<string>,
                         newLines: seq<string>, settings: Settings, recode: Recoder)

  /** The fields the processor updates while it walks the patch. */
  datatype ProcState = ProcState(out: seq<string>, valid: bool, start1: int, size1: int,
                                 start2: int, size2: int, section: string, cache: Option<Encoding>)

  const Initial: ProcState := ProcState([], true, -1, -1, -1, -1, "", None)

  /** Every line with one space in front: an unchanged line of a diff. */
  function Prefixed(lines: seq<string>): (r: seq<string>)
  {
    seq(|lines|, k requires 0 <= k < |lines| => " " + lines[k])
  }

  /** `s[i:]` for a non-negative `i`. */
  function Drop<T>(s: seq<T>, i: nat): seq<T>
  {
    if i <= |s| then s[i..] else []
  }

  // ----- context limits -----

  datatype Limits = Limits(start1: int, size1: int, start2: int, size2: int)

  /**
   * `_calc_context_limits`: both ranges start `before` lines earlier (never
   * before line 1) and end `after` lines later, the old range being capped
   * at the end of the original file but never below its own size.
   */
  function ContextLimits(h: Hunk, lenOrig: nat, before: int, after: int): Limits
  {
    var s1 := Max(1, h.start1 - before);
    var n1 := h.size1 + (h.start1 - s1) + after;
    var s2 := Max(1, h.start2 - before);
    var n2 := h.size2 + (h.start2 - s2) + after;
    if s1 - 1 + n1 > lenOrig then
      var cap := s1 - 1 + n1 - lenOrig;
      Limits(s1, Max(n1 - cap, h.size1), s2, Max(n2 - cap, h.size2))
    else Limits(s1, n1, s2, n2)
  }

  /** The widened ranges start `before` lines earlier (never before line 1), never
      lose the hunk's own lines, and end `after` lines later whenever the original
      file is long enough. */
  lemma ContextLimitsBounds(h: Hunk, lenOrig: nat, before: int, after: int)
    ensures var r := ContextLimits(h, lenOrig, before, after);
            && r.start1 == Max(1, h.start1 - before) && r.start2 == Max(1, h.start2 - before)
            && (r.start1 - 1 + r.size1 <= lenOrig || r.size1 == h.size1)
            && (h.start1 >= 1 && h.start2 >= 1 && before >= 0 && after >= 0 ==>
                  r.size1 >= h.size1 && r.size2 >= h.size2)
            && (h.start1 + h.size1 + after - 1 <= lenOrig && before >= 0 && h.start1 >= 1 ==>
                  r.start1 + r.size1 == h.start1 + h.size1 + after)
  {
  }

  /** Both ranges moved `k` lines later, keeping their ends. */
  function Shift(l: Limits, k: int): Limits
  {
    Limits(l.start1 + k, l.size1 - k, l.start2 + k, l.size2 - k)
  }

  // ----- searching the context -----

  /** The index of the first line containing `needle`, or `|lines|`. */
  function FirstContaining(lines: seq<string>, needle: string): (k: nat)
    ensures k <= |lines|
    decreases |lines|
  {
    if lines == [] then 0
    else if Contains(lines[0], needle) then 0
    else 1 + FirstContaining(lines[1..], needle)
  }

  /** `FirstContaining` finds the first line holding the needle. */
  lemma {:induction false} FirstContainingIsFirst(lines: seq<string>, needle: string)
    ensures FirstContaining(lines, needle) < |lines| ==> Contains(lines[FirstContaining(lines, needle)], needle)
    ensures forall j :: 0 <= j < FirstContaining(lines, needle) ==> !Contains(lines[j], needle)
    decreases |lines|
  {
    if lines != [] && !Contains(lines[0], needle) {
      FirstContainingIsFirst(lines[1..], needle);
      forall j | 0 <= j < FirstContaining(lines, needle)
        ensures !Contains(lines[j], needle)
      {
        if j > 0 {
          assert lines[j] == lines[1..][j - 1];
        }
      }
    }
  }

  /** The first `k < |a|` from which `a` and `b` end alike (`a[k:] == b[k:]`), or `|a|`. */
  function FirstSuffixMatch(a: seq<string>, b: seq<string>, from: nat): (k: nat)
    requires from <= |a|
    ensures from <= k <= |a|
    decreases |a| - from
  {
    if from == |a| then from
    else if a[from..] == Drop(b, from) then from
    else FirstSuffixMatch(a, b, from + 1)
  }

  /** Where `FirstSuffixMatch` stops inside `a`, the tails of `a` and `b` agree. */
  lemma {:induction false} FirstSuffixMatchAgrees(a: seq<string>, b: seq<string>, from: nat)
    requires from <= |a|
    ensures FirstSuffixMatch(a, b, from) < |a| ==> a[FirstSuffixMatch(a, b, from)..] == Drop(b, FirstSuffixMatch(a, b, from))
    decreases |a| - from
  {
    if from < |a| && a[from..] != Drop(b, from) {
      FirstSuffixMatchAgrees(a, b, from + 1);
    }
  }

  /** `FirstSuffixMatch` finds the first index, from `from` on, where the tails agree. */
  lemma {:induction false} FirstSuffixMatchIsFirst(a: seq<string>, b: seq<string>, from: nat)
    requires from <= |a|
    ensures forall j :: from <= j < FirstSuffixMatch(a, b, from) ==> a[j..] != Drop(b, j)
    decreases |a| - from
  {
    if from < |a| && a[from..] != Drop(b, from) {
      FirstSuffixMatchIsFirst(a, b, from + 1);
    }
  }

  // ----- extending one hunk -----

  /** The outcome of `_extend_hunk`: the widened ranges, the section text and the prepended lines. */
  datatype Extension = Extension(lim: Limits, section: string, block: seq<string>)

  /**
   * Dynamic context: look back `beforeDynamic` lines for the first line
   * holding the section text; when the old and new files agree from there
   * on, start the context at that line and drop the section text. Otherwise
   * fall back to the static limits.
   */
  function DynamicLimits(inp: Input, h: Hunk): (Limits, string)
  {
    var dyn := ContextLimits(h, |inp.originalLines|, inp.settings.beforeDynamic, inp.settings.after);
    AnchorOrFallback(h, dyn, ContextLimits(h, |inp.originalLines|, inp.settings.before, inp.settings.after),
                     PySlice(inp.originalLines, dyn.start1 - 1, h.start1 - 1), PySlice(inp.newLines, dyn.start2 - 1, h.start2 - 1))
  }

  lemma {:induction false} DynamicLimitsUnfold(inp: Input, h: Hunk)
    ensures var dyn := ContextLimits(h, |inp.originalLines|, inp.settings.beforeDynamic, inp.settings.after);
            DynamicLimits(inp, h)
            == AnchorOrFallback(h, dyn, ContextLimits(h, |inp.originalLines|, inp.settings.before, inp.settings.after),
                                PySlice(inp.originalLines, dyn.start1 - 1, h.start1 - 1), PySlice(inp.newLines, dyn.start2 - 1, h.start2 - 1))
  {
  }

  /** The anchoring decision on the looked-back old and new lines. */
  function AnchorOrFallback(h: Hunk, dyn: Limits, fallback: Limits, linesOrig: seq<string>, linesNew: seq<string>): (Limits, string)
  {
    var i := FirstContaining(linesOrig, h.section);
    if i < |linesOrig| && linesOrig[i..] == Drop(linesNew, i) then (Shift(dyn, i), "")
    else (fallback, h.section)
  }

  /**
   * The context block after the old/new comparison: kept when both files
   * agree, trimmed to the first common tail, or dropped (the ranges falling
   * back to the hunk's own) when they share none.
   */
  function TrimToCommon(inp: Input, h: Hunk, lim: Limits): (Limits, seq<string>)
  {
    CommonTail(h, lim, Prefixed(PySlice(inp.originalLines, lim.start1 - 1, h.start1 - 1)),
               inp.newLines != [], Prefixed(PySlice(inp.newLines, lim.start2 - 1, h.start2 - 1)))
  }

  /** The comparison itself, on the old context `deltaOrig` and, when the new file is known, the new one. */
  function CommonTail(h: Hunk, lim: Limits, deltaOrig: seq<string>, hasNew: bool, deltaNew: seq<string>): (Limits, seq<string>)
  {
    if !hasNew || deltaOrig == deltaNew then (lim, deltaOrig)
    else
      var k := FirstSuffixMatch(deltaOrig, deltaNew, 0);
      if k < |deltaOrig| then (Shift(lim, k), deltaOrig[k..])
      else (Limits(h.start1, h.size1, h.start2, h.size2), [])
  }

  /** `_extend_hunk` on the hunk `h`. */
  function ExtendHunkSpec(inp: Input, h: Hunk): Extension
  {
    var (lim0, section0) := BaseLimits(inp, h);
    var (lim, block) := TrimToCommon(inp, h, lim0);
    var section :=
      if section0 != "" && !inp.settings.allowDynamic && FirstContaining(block, section0) < |block| then ""
      else section0;
    Extension(lim, section, block)
  }

  /** The hunk header written for an extension. */
  function ExtensionHeader(e: Extension): string
  {
    RenderHeader(e.lim.start1, e.lim.size1, e.lim.start2, e.lim.size2, e.section)
  }

  // ----- the validity check -----

  /**
   * `check_if_hunk_lines_matches_to_file`: a hunk is invalid when its first
   * body line is an unchanged line whose stripped text differs from the
   * stripped original line `start1`. Where the check raises (an empty next
   * line, a line number outside the file) the result is `!invalidOnError`.
   * The fallback encodings are only logged: they never change the result.
   */
  function HunkLinesMatch(i: nat, orig: seq<string>, patch: seq<string>, start1: int, invalidOnError: bool): bool
  {
    if i + 1 < |patch| then
      var next := patch[i + 1];
      if next == [] then !invalidOnError
      else if next[0] != ' ' then true
      else match PyIndex(orig, start1 - 1)
        case None => !invalidOnError
        case Some(o) => Strip(next) == Strip(o)
    else true
  }

  /** Re-reading `o` through `e` gives, once stripped, the patch line `p`. */
  predicate Reconciles(recode: Recoder, e: Encoding, o: string, p: string)
  {
    recode(e, o).Some? && Strip(recode(e, o).value) == p
  }

  /** The first encoding of `encs`, other than `skip`, that reconciles `o` with `p`. */
  function FirstReconciling(recode: Recoder, encs: seq<Encoding>, skip: Option<Encoding>, o: string, p: string): (r: Option<Encoding>)
    ensures r.Some? ==> Some(r.value) != skip && Reconciles(recode, r.value, o, p)
    decreases |encs|
  {
    if encs == [] then None
    else if Some(encs[0]) != skip && Reconciles(recode, encs[0], o, p) then Some(encs[0])
    else FirstReconciling(recode, encs[1..], skip, o, p)
  }

  /** Only when no encoding other than `skip` reconciles the lines is nothing found. */
  lemma {:induction false} FirstReconcilingNone(recode: Recoder, encs: seq<Encoding>, skip: Option<Encoding>, o: string, p: string)
    requires FirstReconciling(recode, encs, skip, o, p).None?
    ensures forall e :: e in encs && Some(e) != skip ==> !Reconciles(recode, e, o, p)
    decreases |encs|
  {
    if encs != [] {
      FirstReconcilingNone(recode, encs[1..], skip, o, p);
      assert forall e :: e in encs ==> e == encs[0] || e in encs[1..];
    }
  }

  /**
   * The cached encoding after a mismatch: kept when it reconciles the two
   * lines, else replaced by the first other encoding that does, else kept.
   */
  function NextCache(recode: Recoder, cache: Option<Encoding>, o: string, p: string): (r: Option<Encoding>)
    ensures r == cache || (r.Some? && Reconciles(recode, r.value, o, p))
    ensures cache.Some? && Reconciles(recode, cache.value, o, p) ==> r == cache
  {
    if cache.Some? && Reconciles(recode, cache.value, o, p) then cache
    else match FirstReconciling(recode, Encodings, cache, o, p)
      case Some(e) => Some(e)
      case None => cache
  }

  /** The check as each copy runs it: the verdict and the cached encoding afterwards. */
  function CheckSpec(inp: Input, cache: Option<Encoding>, i: nat, start1: int): (r: (bool, Option<Encoding>))
    ensures r.0 == HunkLinesMatch(i, inp.originalLines, inp.patchLines, start1, inp.variant.CachedEncoding?)
    ensures inp.variant == GitPatchProcessing || r.0 ==> r.1 == cache
  {
    var patch := inp.patchLines;
    if inp.variant.GitPatchProcessing? then
      (HunkLinesMatch(i, inp.originalLines, patch, start1, false), cache)
    else if i + 1 < |patch| && patch[i + 1] != [] && patch[i + 1][0] == ' ' then
      match PyIndex(inp.originalLines, start1 - 1)
      case None => (false, cache)
      case Some(o) =>
        var p, ol := Strip(patch[i + 1]), Strip(o);
        if p == ol then (true, cache) else (false, NextCache(inp.recode, cache, ol, p))
    else (HunkLinesMatch(i, inp.originalLines, patch, start1, true), cache)
  }

  // ----- the line loop -----

  /** The original lines appended after a hunk when it ends: up to `after` lines from old line `start1 + size1`. */
  function AfterContext(inp: Input, st: ProcState): seq<string>
  {
    var a := inp.settings.after;
    if st.valid && st.start1 != -1 && a > 0 then
      var from := st.start1 + st.size1 - 1;
      Prefixed(PySlice(inp.originalLines, from, from + a))
    else []
  }

  /** `_finish_previous_hunk` / `_finish_last_hunk`. */
  function FinishHunk(inp: Input, st: ProcState): ProcState
  {
    st.(out := st.out + AfterContext(inp, st))
  }

  /** The state once the header of `h` at line `i` has been read and checked. */
  function OpenHunk(inp: Input, st: ProcState, i: nat, h: Hunk): ProcState
  {
    var (valid, cache) := CheckSpec(inp, st.cache, i, h.start1);
    ProcState(st.out, valid, h.start1, h.size1, h.start2, h.size2, h.section, cache)
  }

  lemma {:induction false} OpenHunkFields(inp: Input, st: ProcState, i: nat, h: Hunk, valid: bool, cache: Option<Encoding>)
    requires (valid, cache) == CheckSpec(inp, st.cache, i, h.start1)
    ensures OpenHunk(inp, st, i, h) == ProcState(st.out, valid, h.start1, h.size1, h.start2, h.size2, h.section, cache)
  {
  }

  /** `_extend_hunk` applied to the state: the empty line, the widened header and the context block. */
  function ExtendState(inp: Input, st: ProcState): ProcState
  {
    var e := ExtendHunkSpec(inp, Hunk(st.start1, st.size1, st.start2, st.size2, st.section));
    st.(out := st.out + ["", ExtensionHeader(e)] + e.block, section := e.section)
  }

  predicate Extending(s: Settings) { s.before > 0 || s.after > 0 }

  /** A line that `process` treats as a hunk header. */
  predicate IsHunkStart(line: string) { StartsWith(line, "@@") && IsHeader(line) }

  /** One iteration of `process` on patch line `i`. */
  function Step(inp: Input, st: ProcState, i: nat): ProcState
    requires i < |inp.patchLines|
  {
    var line := inp.patchLines[i];
    if IsHunkStart(line) then
      var st1 := OpenHunk(inp, FinishHunk(inp, st), i, ExtractHunkHeaders(MatchHeader(line).value));
      if st1.valid && Extending(inp.settings) then ExtendState(inp, st1)
      else st1.(out := st1.out + [line])
    else st.(out := st.out + [line])
  }

  /** The state after the first `n` patch lines. */
  function RunTo(inp: Input, n: nat): ProcState
    requires n <= |inp.patchLines|
  {
    if n == 0 then Initial else Step(inp, RunTo(inp, n - 1), n - 1)
  }

  /** The lines `process` joins: the whole loop, then the last hunk's after-context. */
  function ProcessedLines(inp: Input): seq<string>
  {
    FinishHunk(inp, RunTo(inp, |inp.patchLines|)).out
  }

  // ----- properties of the extension -----

  /** Dropping `k` lines of a slice that starts at a non-negative index is slicing `k` lines later. */
  lemma {:induction false} PySliceDrop<T>(s: seq<T>, a: int, b: int, k: nat)
    requires a >= 0
    ensures PySlice(s, a + k, b) == Drop(PySlice(s, a, b), k)
  {
    var x := PySlice(s, a, b);
    if k <= |x| && x != [] {
      assert PySlice(s, a + k, b) == x[k..];
    }
  }

  lemma {:induction false} PrefixedDrop(lines: seq<string>, k: nat)
    ensures Drop(Prefixed(lines), k) == Prefixed(Drop(lines, k))
  {
  }

  /** Where the tails agree from `k` on, the trimmed block is both files' lines `k` later. */
  lemma {:induction false} TailShift(xs: seq<string>, ys: seq<string>, a1: int, e1: int, a2: int, e2: int, k: nat)
    requires a1 >= 0 && a2 >= 0
    requires k < |Prefixed(PySlice(xs, a1, e1))|
    requires Prefixed(PySlice(xs, a1, e1))[k..] == Drop(Prefixed(PySlice(ys, a2, e2)), k)
    ensures Prefixed(PySlice(xs, a1, e1))[k..] == Prefixed(PySlice(xs, a1 + k, e1))
    ensures Prefixed(PySlice(xs, a1, e1))[k..] == Prefixed(PySlice(ys, a2 + k, e2))
  {
    PySliceDrop(xs, a1, e1, k);
    PrefixedDrop(PySlice(xs, a1, e1), k);
    PySliceDrop(ys, a2, e2, k);
    PrefixedDrop(PySlice(ys, a2, e2), k);
  }

  /** The old/new comparison keeps the block equal to the original lines before the hunk. */
  lemma {:induction false} TrimBlockOriginal(inp: Input, h: Hunk, lim: Limits)
    requires lim.start1 >= 1 && lim.start2 >= 1
    ensures TrimToCommon(inp, h, lim).1
            == Prefixed(PySlice(inp.originalLines, TrimToCommon(inp, h, lim).0.start1 - 1, h.start1 - 1))
  {
    var dx := Prefixed(PySlice(inp.originalLines, lim.start1 - 1, h.start1 - 1));
    var dy := Prefixed(PySlice(inp.newLines, lim.start2 - 1, h.start2 - 1));
    assert TrimToCommon(inp, h, lim) == CommonTail(h, lim, dx, inp.newLines != [], dy);
    CommonTailBlock(inp.originalLines, inp.newLines, h, lim, dx, inp.newLines != [], dy);
  }

  /** When the new file is known, the block also equals its lines before the new-side start. */
  lemma {:induction false} TrimBlockNew(inp: Input, h: Hunk, lim: Limits)
    requires lim.start1 >= 1 && lim.start2 >= 1 && inp.newLines != []
    ensures TrimToCommon(inp, h, lim).1
            == Prefixed(PySlice(inp.newLines, TrimToCommon(inp, h, lim).0.start2 - 1, h.start2 - 1))
  {
    var dx := Prefixed(PySlice(inp.originalLines, lim.start1 - 1, h.start1 - 1));
    var dy := Prefixed(PySlice(inp.newLines, lim.start2 - 1, h.start2 - 1));
    assert TrimToCommon(inp, h, lim) == CommonTail(h, lim, dx, true, dy);
    CommonTailNewBlock(inp.originalLines, inp.newLines, h, lim, dx, dy);
  }

  /** The trimmed block still ends where the hunk begins. */
  lemma {:induction false} TrimBlockEnd(inp: Input, h: Hunk, lim: Limits)
    requires 1 <= lim.start1 <= h.start1 <= |inp.originalLines| + 1 && lim.start2 >= 1
    ensures TrimToCommon(inp, h, lim).0.start1 + |TrimToCommon(inp, h, lim).1| == h.start1
  {
    var dx := Prefixed(PySlice(inp.originalLines, lim.start1 - 1, h.start1 - 1));
    var dy := Prefixed(PySlice(inp.newLines, lim.start2 - 1, h.start2 - 1));
    assert TrimToCommon(inp, h, lim) == CommonTail(h, lim, dx, inp.newLines != [], dy);
    CommonTailEnd(inp.originalLines, inp.newLines, h, lim, dx, inp.newLines != [], dy);
  }

  /** The comparison keeps a block of the old lines ending where the hunk begins. */
  lemma {:induction false} CommonTailBlock(xs: seq<string>, ys: seq<string>, h: Hunk, lim: Limits, dx: seq<string>, hasNew: bool, dy: seq<string>)
    requires lim.start1 >= 1 && lim.start2 >= 1
    requires dx == Prefixed(PySlice(xs, lim.start1 - 1, h.start1 - 1))
    requires dy == Prefixed(PySlice(ys, lim.start2 - 1, h.start2 - 1))
    ensures CommonTail(h, lim, dx, hasNew, dy).1 == Prefixed(PySlice(xs, CommonTail(h, lim, dx, hasNew, dy).0.start1 - 1, h.start1 - 1))
  {
    TailAt(xs, ys, lim.start1 - 1, h.start1 - 1, lim.start2 - 1, h.start2 - 1, dx, dy, FirstSuffixMatch(dx, dy, 0));
  }

  /** When the new lines are compared, the block is also the new file's lines before the hunk. */
  lemma {:induction false} CommonTailNewBlock(xs: seq<string>, ys: seq<string>, h: Hunk, lim: Limits, dx: seq<string>, dy: seq<string>)
    requires lim.start1 >= 1 && lim.start2 >= 1
    requires dx == Prefixed(PySlice(xs, lim.start1 - 1, h.start1 - 1))
    requires dy == Prefixed(PySlice(ys, lim.start2 - 1, h.start2 - 1))
    ensures CommonTail(h, lim, dx, true, dy).1 == Prefixed(PySlice(ys, CommonTail(h, lim, dx, true, dy).0.start2 - 1, h.start2 - 1))
  {
    TailAt(xs, ys, lim.start1 - 1, h.start1 - 1, lim.start2 - 1, h.start2 - 1, dx, dy, FirstSuffixMatch(dx, dy, 0));
  }

  /** The block's length is the distance from the new start to the hunk. */
  lemma {:induction false} CommonTailEnd(xs: seq<string>, ys: seq<string>, h: Hunk, lim: Limits, dx: seq<string>, hasNew: bool, dy: seq<string>)
    requires 1 <= lim.start1 <= h.start1 <= |xs| + 1 && lim.start2 >= 1
    requires dx == Prefixed(PySlice(xs, lim.start1 - 1, h.start1 - 1))
    requires dy == Prefixed(PySlice(ys, lim.start2 - 1, h.start2 - 1))
    ensures CommonTail(h, lim, dx, hasNew, dy).0.start1 + |CommonTail(h, lim, dx, hasNew, dy).1| == h.start1
  {
    TailAt(xs, ys, lim.start1 - 1, h.start1 - 1, lim.start2 - 1, h.start2 - 1, dx, dy, FirstSuffixMatch(dx, dy, 0));
  }

  /** Where the search stops inside the old context, its tail is both files' lines `k` further on. */
  lemma {:induction false} TailAt(xs: seq<string>, ys: seq<string>, a1: int, e1: int, a2: int, e2: int, dx: seq<string>, dy: seq<string>, k: nat)
    requires a1 >= 0 && a2 >= 0
    requires dx == Prefixed(PySlice(xs, a1, e1)) && dy == Prefixed(PySlice(ys, a2, e2))
    requires k <= |dx| && k == FirstSuffixMatch(dx, dy, 0)
    ensures k < |dx| ==> dx[k..] == Prefixed(PySlice(xs, a1 + k, e1)) && dx[k..] == Prefixed(PySlice(ys, a2 + k, e2))
  {
    FirstSuffixMatchAgrees(dx, dy, 0);
    if k < |dx| {
      TailShift(xs, ys, a1, e1, a2, e2, k);
    }
  }

  /** The limits `_extend_hunk` starts from, before the old/new comparison, and the section text. */
  function BaseLimits(inp: Input, h: Hunk): (Limits, string)
  {
    var st := inp.settings;
    if st.allowDynamic && inp.newLines != [] then DynamicLimits(inp, h)
    else (ContextLimits(h, |inp.originalLines|, st.before, st.after), h.section)
  }

  /** The starting limits begin on line 1 or later, and not after the hunk when it lies in the file. */
  lemma {:induction false} BaseLimitsBounds(inp: Input, h: Hunk)
    ensures BaseLimits(inp, h).0.start1 >= 1 && BaseLimits(inp, h).0.start2 >= 1
    ensures inp.settings.before >= 0 && inp.settings.beforeDynamic >= 0 && 1 <= h.start1 <= |inp.originalLines| + 1
            ==> BaseLimits(inp, h).0.start1 <= h.start1
  {
  }

  /**
   * The lines prepended to a widened hunk are the original file's lines from
   * the new start up to the hunk, each behind one space.
   */
  lemma {:induction false} ExtensionBlock(inp: Input, h: Hunk)
    ensures ExtendHunkSpec(inp, h).block
            == Prefixed(PySlice(inp.originalLines, ExtendHunkSpec(inp, h).lim.start1 - 1, h.start1 - 1))
  {
    var lim0 := BaseLimits(inp, h).0;
    ExtensionIsTrim(inp, h);
    BaseLimitsBounds(inp, h);
    TrimBlockOriginal(inp, h, lim0);
  }

  /** When the new file is known, the prepended lines are also its lines up to the new-side start. */
  lemma {:induction false} ExtensionBlockNew(inp: Input, h: Hunk)
    requires inp.newLines != []
    ensures ExtendHunkSpec(inp, h).block == Prefixed(PySlice(inp.newLines, ExtendHunkSpec(inp, h).lim.start2 - 1, h.start2 - 1))
  {
    var lim0 := BaseLimits(inp, h).0;
    ExtensionIsTrim(inp, h);
    BaseLimitsBounds(inp, h);
    TrimBlockNew(inp, h, lim0);
  }

  /** For a hunk inside the file the prepended lines end exactly where the hunk begins. */
  lemma {:induction false} ExtensionBlockEnd(inp: Input, h: Hunk)
    requires inp.settings.before >= 0 && inp.settings.beforeDynamic >= 0 && 1 <= h.start1 <= |inp.originalLines| + 1
    ensures ExtendHunkSpec(inp, h).lim.start1 + |ExtendHunkSpec(inp, h).block| == h.start1
  {
    var lim0 := BaseLimits(inp, h).0;
    ExtensionIsTrim(inp, h);
    BaseLimitsBounds(inp, h);
    TrimBlockEnd(inp, h, lim0);
  }

  /** The limits and the block of an extension are those of the comparison. */
  lemma {:induction false} ExtensionIsTrim(inp: Input, h: Hunk)
    ensures ExtendHunkSpec(inp, h).lim == TrimToCommon(inp, h, BaseLimits(inp, h).0).0
    ensures ExtendHunkSpec(inp, h).block == TrimToCommon(inp, h, BaseLimits(inp, h).0).1
  {
  }

  /**
   * The section text is kept or blanked. In static mode it is blanked exactly
   * when one of the prepended lines holds it; in dynamic mode only when the
   * new file is known and anchors the context.
   */
  lemma {:induction false} ExtensionSection(inp: Input, h: Hunk)
    ensures ExtendHunkSpec(inp, h).section in {h.section, ""}
    ensures !inp.settings.allowDynamic && h.section != "" ==>
            (ExtendHunkSpec(inp, h).section == ""
             <==> exists k :: 0 <= k < |ExtendHunkSpec(inp, h).block| && Contains(ExtendHunkSpec(inp, h).block[k], h.section))
    ensures inp.settings.allowDynamic && h.section != "" && ExtendHunkSpec(inp, h).section == "" ==> inp.newLines != []
  {
    FirstContainingIsFirst(ExtendHunkSpec(inp, h).block, h.section);
  }

  // ----- sequence slices -----

  lemma {:induction false} SliceSnoc<T>(s: seq<T>, a: nat, b: nat)
    requires a < b <= |s|
    ensures s[a..b] == s[a..b - 1] + [s[b - 1]]
  {
  }

  lemma {:induction false} SliceCons<T>(s: seq<T>, a: nat, b: nat)
    requires a < b <= |s|
    ensures s[a..b] == [s[a]] + s[a + 1..b]
  {
  }

  lemma {:induction false} SliceAll<T>(s: seq<T>)
    ensures s[..|s|] == s
  {
  }

  // ----- properties of the line loop -----

  /** With no context asked for, `process` gives back the patch lines unchanged. */
  lemma {:induction false} UnextendedIsIdentity(inp: Input, n: nat)
    requires n <= |inp.patchLines| && !Extending(inp.settings)
    ensures RunTo(inp, n).out == inp.patchLines[..n]
  {
    if n > 0 {
      UnextendedIsIdentity(inp, n - 1);
      SliceSnoc(inp.patchLines, 0, n);
    }
  }

  lemma {:induction false} UnextendedProcess(inp: Input)
    requires !Extending(inp.settings)
    ensures ProcessedLines(inp) == inp.patchLines
  {
    UnextendedIsIdentity(inp, |inp.patchLines|);
    SliceAll(inp.patchLines);
  }

  /** Lines that do not open a hunk, including "@@" lines the pattern rejects, are copied through one by one. */
  lemma {:induction false} BodyCopied(inp: Input, i: nat, j: nat)
    requires i < j <= |inp.patchLines|
    requires forall k :: i < k < j ==> !IsHunkStart(inp.patchLines[k])
    ensures RunTo(inp, j) == RunTo(inp, i + 1).(out := RunTo(inp, i + 1).out + inp.patchLines[i + 1..j])
    decreases j - i
  {
    if j > i + 1 {
      BodyCopied(inp, i, j - 1);
      BodyCopiedStep(inp, i, j);
    }
  }

  lemma {:induction false} BodyCopiedStep(inp: Input, i: nat, j: nat)
    requires i + 1 < j <= |inp.patchLines| && !IsHunkStart(inp.patchLines[j - 1])
    requires RunTo(inp, j - 1) == RunTo(inp, i + 1).(out := RunTo(inp, i + 1).out + inp.patchLines[i + 1..j - 1])
    ensures RunTo(inp, j) == RunTo(inp, i + 1).(out := RunTo(inp, i + 1).out + inp.patchLines[i + 1..j])
  {
    CopyStep(inp, j - 1);
    CopiedSnoc(RunTo(inp, i + 1), inp.patchLines, i, j, RunTo(inp, j - 1), RunTo(inp, j));
  }

  lemma {:induction false} CopiedSnoc(st: ProcState, lines: seq<string>, i: nat, j: nat, prev: ProcState, next: ProcState)
    requires i + 1 < j <= |lines|
    requires prev == st.(out := st.out + lines[i + 1..j - 1])
    requires next == prev.(out := prev.out + [lines[j - 1]])
    ensures next == st.(out := st.out + lines[i + 1..j])
  {
    AppendLine(st, lines[i + 1..j - 1], lines[j - 1], prev, next);
    SliceSnoc(lines, i + 1, j);
  }

  /** The step on a line that does not open a hunk copies it. */
  lemma {:induction false} CopyStep(inp: Input, n: nat)
    requires n < |inp.patchLines| && !IsHunkStart(inp.patchLines[n])
    ensures RunTo(inp, n + 1) == RunTo(inp, n).(out := RunTo(inp, n).out + [inp.patchLines[n]])
  {
  }

  lemma {:induction false} AppendLine(st: ProcState, body: seq<string>, line: string, st1: ProcState, st2: ProcState)
    requires st1 == st.(out := st.out + body) && st2 == st1.(out := st1.out + [line])
    ensures st2 == st.(out := st.out + (body + [line]))
  {
  }

  /** The hunk opened by the header on patch line `i`. */
  function HeaderHunk(inp: Input, i: nat): Hunk
    requires i < |inp.patchLines| && IsHunkStart(inp.patchLines[i])
  {
    ExtractHunkHeaders(MatchHeader(inp.patchLines[i]).value)
  }

  /**
   * A valid hunk, with context asked for, is written as: the previous hunk's
   * after-context, an empty line, the widened header, the prepended block and
   * the hunk body verbatim; it stays open with its own start and size, so the
   * after-context that closes it is the original lines from `start1 + size1`.
   */
  lemma {:induction false} ExtendedHunkLayout(inp: Input, i: nat, j: nat)
    requires i < j <= |inp.patchLines| && IsHunkStart(inp.patchLines[i])
    requires forall k :: i < k < j ==> !IsHunkStart(inp.patchLines[k])
    requires OpenHunk(inp, FinishHunk(inp, RunTo(inp, i)), i, HeaderHunk(inp, i)).valid && Extending(inp.settings)
    ensures var h := HeaderHunk(inp, i);
            var e := ExtendHunkSpec(inp, h);
            RunTo(inp, j).out == RunTo(inp, i).out + AfterContext(inp, RunTo(inp, i))
                                 + ["", ExtensionHeader(e)] + e.block + inp.patchLines[i + 1..j]
            && RunTo(inp, j).valid && RunTo(inp, j).start1 == h.start1 && RunTo(inp, j).size1 == h.size1
  {
    BodyCopied(inp, i, j);
  }

  /**
   * A hunk whose check fails keeps its header line as it was, gets no
   * prepended block, and gets no after-context when it is closed.
   */
  lemma {:induction false} InvalidHunkUnchanged(inp: Input, i: nat, j: nat)
    requires i < j <= |inp.patchLines| && IsHunkStart(inp.patchLines[i])
    requires forall k :: i < k < j ==> !IsHunkStart(inp.patchLines[k])
    requires !OpenHunk(inp, FinishHunk(inp, RunTo(inp, i)), i, HeaderHunk(inp, i)).valid
    ensures RunTo(inp, j).out == FinishHunk(inp, RunTo(inp, i)).out + inp.patchLines[i..j]
    ensures AfterContext(inp, RunTo(inp, j)) == []
  {
    var st1 := OpenHunk(inp, FinishHunk(inp, RunTo(inp, i)), i, HeaderHunk(inp, i));
    HeaderStepInvalid(inp, i, st1);
    BodyCopied(inp, i, j);
    CopiedAfterInvalid(st1, inp.patchLines[i], inp.patchLines[i + 1..j], RunTo(inp, i + 1), RunTo(inp, j));
    SliceCons(inp.patchLines, i, j);
    assert !RunTo(inp, j).valid;
  }

  /** The step on a header line whose check fails copies the header line. */
  lemma {:induction false} HeaderStepInvalid(inp: Input, i: nat, st1: ProcState)
    requires i < |inp.patchLines| && IsHunkStart(inp.patchLines[i])
    requires st1 == OpenHunk(inp, FinishHunk(inp, RunTo(inp, i)), i, HeaderHunk(inp, i)) && !st1.valid
    ensures RunTo(inp, i + 1) == st1.(out := st1.out + [inp.patchLines[i]])
  {
    HeaderStep(inp, i);
  }

  lemma {:induction false} CopiedAfterInvalid(st1: ProcState, line: string, body: seq<string>, r1: ProcState, rj: ProcState)
    requires r1 == st1.(out := st1.out + [line]) && rj == r1.(out := r1.out + body)
    ensures rj.out == st1.out + ([line] + body) && rj.valid == st1.valid
  {
  }

  /** The step on a header line: close the previous hunk, open this one, then widen it or copy the header. */
  lemma {:induction false} HeaderStep(inp: Input, i: nat)
    requires i < |inp.patchLines| && IsHunkStart(inp.patchLines[i])
    ensures var st1 := OpenHunk(inp, FinishHunk(inp, RunTo(inp, i)), i, HeaderHunk(inp, i));
            RunTo(inp, i + 1) == if st1.valid && Extending(inp.settings) then ExtendState(inp, st1)
                                 else st1.(out := st1.out + [inp.patchLines[i]])
  {
  }

  /** The step on a header line, for any state before it. */
  lemma {:induction false} StepHeader(inp: Input, st: ProcState, i: nat, st1: ProcState)
    requires i < |inp.patchLines| && IsHunkStart(inp.patchLines[i])
    requires st1 == OpenHunk(inp, FinishHunk(inp, st), i, HeaderHunk(inp, i))
    ensures Step(inp, st, i) == if st1.valid && Extending(inp.settings) then ExtendState(inp, st1)
                                else st1.(out := st1.out + [inp.patchLines[i]])
  {
  }

  /**
   * The two copies part ways only where the check raises: an empty line
   * after the header, or a header line number outside the original file.
   */
  lemma {:induction false} ExceptionVerdicts(inp: Input, i: nat, start1: int, cache: Option<Encoding>)
    requires i + 1 < |inp.patchLines|
    requires inp.patchLines[i + 1] == []
             || (inp.patchLines[i + 1][0] == ' ' && PyIndex(inp.originalLines, start1 - 1).None?)
    ensures CheckSpec(inp, cache, i, start1).0 <==> inp.variant.GitPatchProcessing?
  {
  }

  // ----- the processor object -----

  /** The search loop of the dynamic context and its `found_header` flag. */
  method AnchorSearch(h: Hunk, dyn: Limits, fallback: Limits, linesOrig: seq<string>, linesNew: seq<string>)
    returns (lim: Limits, section: string)
    ensures (lim, section) == AnchorOrFallback(h, dyn, fallback, linesOrig, linesNew)
  {
    var foundHeader := false;
    section := h.section;
    var i := FindContaining(linesOrig, h.section);
    lim := dyn;
    if i < |linesOrig| {
      lim := Shift(dyn, i);
      if linesOrig[i..] == Drop(linesNew, i) {
        foundHeader := true;
        section := "";
      }
    }
    if !foundHeader {
      lim := fallback;
    }
  }

  /** `s.find(t) != -1` over a sequence of lines: the loop that looks for the section text. */
  method FindContaining(lines: seq<string>, needle: string) returns (k: nat)
    ensures k == FirstContaining(lines, needle)
  {
    k := 0;
    while k < |lines| && !Contains(lines[k], needle)
      invariant k <= |lines|
      invariant forall j :: 0 <= j < k ==> !Contains(lines[j], needle)
    {
      k := k + 1;
    }
    FirstContainingIsFirst(lines, needle);
  }

  /** The loop looking for the first common tail of the old and new context. */
  method FindSuffixMatch(a: seq<string>, b: seq<string>) returns (k: nat)
    ensures k == FirstSuffixMatch(a, b, 0)
  {
    k := 0;
    while k < |a| && a[k..] != Drop(b, k)
      invariant k <= |a|
      invariant forall j :: 0 <= j < k ==> a[j..] != Drop(b, j)
    {
      k := k + 1;
    }
    FirstSuffixMatchAgrees(a, b, 0);
    FirstSuffixMatchIsFirst(a, b, 0);
  }

  class PatchProcessor {
    const variant: Variant
    const patchLines: seq<string>
    const originalLines: seq<string>
    const newLines: seq<string>
    const settings: Settings
    const recode: Recoder
    var extendedPatchLines: seq<string>
    var isValidHunk: bool
    var start1: int
    var size1: int
    var start2: int
    var size2: int
    var sectionHeader: string
    var detectedEncoding: Option<Encoding>

    function In(): Input
    {
      Input(variant, patchLines, originalLines, newLines, settings, recode)
    }

    function State(): ProcState
      reads this
    {
      ProcState(extendedPatchLines, isValidHunk, start1, size1, start2, size2, sectionHeader, detectedEncoding)
    }

    constructor (variant: Variant, patchStr: string, originalFileStr: string, before: int, after: int,
                 newFileStr: string, allowDynamic: bool, beforeDynamic: int, recode: Recoder)
      ensures this.variant == variant && this.recode == recode
      ensures patchLines == SplitLines(patchStr) && originalLines == SplitLines(originalFileStr)
      ensures newLines == SplitLines(newFileStr)
      ensures settings == Settings(before, after, allowDynamic, beforeDynamic)
      ensures State() == Initial
    {
      this.variant := variant;
      this.recode := recode;
      patchLines := SplitLines(patchStr);
      originalLines := SplitLines(originalFileStr);
      newLines := if newFileStr != "" then SplitLines(newFileStr) else [];
      settings := Settings(before, after, allowDynamic, beforeDynamic);
      extendedPatchLines := [];
      isValidHunk := true;
      start1, size1, start2, size2 := -1, -1, -1, -1;
      sectionHeader := "";
      detectedEncoding := None;
    }

    /** `process`: walk the patch lines, then close the last hunk, and join with "\n". */
    method Process() returns (r: string)
      requires State() == Initial
      modifies this
      ensures r == Join("\n", ProcessedLines(In()))
    {
      var i := 0;
      while i < |patchLines|
        invariant i <= |patchLines|
        invariant State() == RunTo(In(), i)
      {
        ProcessLine(i);
        i := i + 1;
      }
      FinishLastHunk();
      r := Join("\n", extendedPatchLines);
    }

    /**
     * The body of the loop in `process`: a line matching the header pattern
     * closes the previous hunk, is read and checked, and is either widened or
     * copied; every other line is copied.
     */
    method ProcessLine(i: nat)
      requires i < |patchLines|
      modifies this
      ensures State() == Step(In(), old(State()), i)
    {
      var line := patchLines[i];
      if StartsWith(line, "@@") && MatchHeader(line).Some? {
        ProcessHeader(i);
      } else {
        extendedPatchLines := extendedPatchLines + [line];
      }
    }

    /** A header line: close the previous hunk, read and check the new one, then widen or copy it. */
    method ProcessHeader(i: nat)
      requires i < |patchLines| && IsHunkStart(patchLines[i])
      modifies this
      ensures State() == Step(In(), old(State()), i)
    {
      ghost var previous := State();
      FinishPreviousHunk();
      OpenHeader(i);
      StepHeader(In(), previous, i, State());
      if isValidHunk && (settings.before > 0 || settings.after > 0) {
        ExtendHunk();
      } else {
        extendedPatchLines := extendedPatchLines + [patchLines[i]];
      }
    }

    /** The header's numbers and section become the current hunk, which is then checked. */
    method OpenHeader(i: nat)
      requires i < |patchLines| && IsHunkStart(patchLines[i])
      modifies this`isValidHunk, this`start1, this`size1, this`start2, this`size2, this`sectionHeader, this`detectedEncoding
      ensures State() == OpenHunk(In(), old(State()), i, HeaderHunk(In(), i))
    {
      var h := ExtractHunkHeaders(MatchHeader(patchLines[i]).value);
      sectionHeader, size1, size2, start1, start2 := h.section, h.size1, h.size2, h.start1, h.start2;
      isValidHunk := CheckHunk(i, start1);
      OpenHunkFields(In(), old(State()), i, h, isValidHunk, detectedEncoding);
    }

    /** `_finish_previous_hunk`: the after-context of the hunk being closed. */
    method FinishPreviousHunk()
      modifies this`extendedPatchLines
      ensures State() == FinishHunk(In(), old(State()))
    {
      if isValidHunk && (start1 != -1 && settings.after > 0) {
        var from := start1 + size1 - 1;
        extendedPatchLines := extendedPatchLines + Prefixed(PySlice(originalLines, from, from + settings.after));
      }
    }

    /** `_finish_last_hunk`: the same, once the loop is over. */
    method FinishLastHunk()
      modifies this`extendedPatchLines
      ensures State() == FinishHunk(In(), old(State()))
    {
      if start1 != -1 && settings.after > 0 && isValidHunk {
        var from := start1 + size1 - 1;
        var delta := PySlice(originalLines, from, from + settings.after);
        extendedPatchLines := extendedPatchLines + Prefixed(delta);
      }
    }

    /**
     * The validity check of the copy in use: the module function for one, the
     * method with the cached encoding for the other.
     */
    method CheckHunk(i: nat, start1: int) returns (valid: bool)
      modifies this`detectedEncoding
      ensures (valid, detectedEncoding) == CheckSpec(In(), old(detectedEncoding), i, start1)
    {
      if variant.GitPatchProcessing? {
        return HunkLinesMatch(i, originalLines, patchLines, start1, false);
      }
      valid := true;
      if i + 1 < |patchLines| {
        var next := patchLines[i + 1];
        if next == [] {
          return false;
        }
        if next[0] == ' ' {
          var p := Strip(next);
          var o := PyIndex(originalLines, start1 - 1);
          if o.None? {
            return false;
          }
          var ol := Strip(o.value);
          if p != ol {
            if detectedEncoding.Some? && Reconciles(recode, detectedEncoding.value, ol, p) {
              return false;
            }
            var k := 0;
            while k < |Encodings|
              invariant k <= |Encodings|
              invariant detectedEncoding == old(detectedEncoding)
              invariant FirstReconciling(recode, Encodings, detectedEncoding, ol, p)
                        == FirstReconciling(recode, Encodings[k..], detectedEncoding, ol, p)
            {
              var e := Encodings[k];
              if Some(e) != detectedEncoding && Reconciles(recode, e, ol, p) {
                detectedEncoding := Some(e);
                return false;
              }
              k := k + 1;
            }
            valid := false;
          }
        }
      }
    }

    /** The dynamic-context search of `_extend_hunk`: the limits and the section text it settles on. */
    method DynamicContext(h: Hunk) returns (lim: Limits, section: string)
      ensures (lim, section) == DynamicLimits(In(), h)
    {
      var dyn := ContextLimits(h, |originalLines|, settings.beforeDynamic, settings.after);
      var linesOrig := PySlice(originalLines, dyn.start1 - 1, h.start1 - 1);
      var linesNew := PySlice(newLines, dyn.start2 - 1, h.start2 - 1);
      var fallback := ContextLimits(h, |originalLines|, settings.before, settings.after);
      lim, section := AnchorSearch(h, dyn, fallback, linesOrig, linesNew);
      DynamicLimitsUnfold(In(), h);
    }

    /** The old/new comparison of `_extend_hunk`: the limits and the lines to prepend. */
    method CommonContext(h: Hunk, lim0: Limits) returns (lim: Limits, deltaOrig: seq<string>)
      ensures (lim, deltaOrig) == TrimToCommon(In(), h, lim0)
    {
      lim := lim0;
      deltaOrig := Prefixed(PySlice(originalLines, lim.start1 - 1, h.start1 - 1));
      var deltaNew := Prefixed(PySlice(newLines, lim.start2 - 1, h.start2 - 1));
      if newLines != [] {
        if deltaOrig != deltaNew {
          var k := FindSuffixMatch(deltaOrig, deltaNew);
          if k < |deltaOrig| {
            deltaOrig := deltaOrig[k..];
            lim := Shift(lim, k);
          } else {
            lim := Limits(h.start1, h.size1, h.start2, h.size2);
            deltaOrig := [];
          }
        }
      }
    }

    /** `_extend_hunk`: the empty line, the widened header and the context block are appended. */
    method ExtendHunk()
      modifies this`extendedPatchLines, this`sectionHeader
      ensures State() == ExtendState(In(), old(State()))
    {
      var h := Hunk(start1, size1, start2, size2, sectionHeader);
      ghost var e := ExtendHunkSpec(In(), h);
      var lim0: Limits;
      if settings.allowDynamic && newLines != [] {
        lim0, sectionHeader := DynamicContext(h);
      } else {
        lim0 := ContextLimits(h, |originalLines|, settings.before, settings.after);
      }
      var lim, deltaOrig := CommonContext(h, lim0);
      if sectionHeader != "" && !settings.allowDynamic {
        var j := FindContaining(deltaOrig, sectionHeader);
        if j < |deltaOrig| {
          sectionHeader := "";
        }
      }
      assert lim == e.lim && deltaOrig == e.block && sectionHeader == e.section;
      extendedPatchLines := extendedPatchLines
        + ["", RenderHeader(lim.start1, lim.size1, lim.start2, lim.size2, sectionHeader)] + deltaOrig;
    }
  }

  // ----- extend_patch -----

  /** File text as the hosting layer hands it over: already text, or raw bytes. */
  datatype FileContent = Str(text: string) | Raw(bytes: seq<bv8>)

  /** The codecs `decode_if_bytes` tries: UTF-8 first, then each fallback encoding. */
  datatype Codec = Utf8 | Fallback(encoding: Encoding)

  /** `bytes.decode(codec)`: None where Python raises `UnicodeDecodeError`. */
  type Decoder = (Codec, seq<bv8>) -> Option<string>

  /** Python's truth value of the content: non-empty. */
  predicate NonEmpty(c: FileContent)
  {
    match c
    case Str(t) => t != []
    case Raw(b) => b != []
  }

  /** The first fallback encoding in `encs` that decodes `b`, and its text. */
  function FirstDecoding(decode: Decoder, b: seq<bv8>, encs: seq<Encoding>): (r: Option<string>)
    ensures r.None? <==> forall j :: 0 <= j < |encs| ==> decode(Fallback(encs[j]), b).None?
  {
    if encs == [] then None
    else if decode(Fallback(encs[0]), b).Some? then decode(Fallback(encs[0]), b)
    else FirstDecoding(decode, b, encs[1..])
  }

  /** A decoded text comes from the first encoding in the list that accepts the bytes. */
  lemma {:induction false} FirstDecodingIsFirst(decode: Decoder, b: seq<bv8>, encs: seq<Encoding>)
    requires FirstDecoding(decode, b, encs).Some?
    ensures exists j :: 0 <= j < |encs| && decode(Fallback(encs[j]), b) == FirstDecoding(decode, b, encs)
                        && forall m :: 0 <= m < j ==> decode(Fallback(encs[m]), b).None?
  {
    if decode(Fallback(encs[0]), b).Some? {
      assert decode(Fallback(encs[0]), b) == FirstDecoding(decode, b, encs);
    } else {
      FirstDecodingIsFirst(decode, b, encs[1..]);
      var j :| 0 <= j < |encs[1..]| && decode(Fallback(encs[1..][j]), b) == FirstDecoding(decode, b, encs[1..])
               && forall m :: 0 <= m < j ==> decode(Fallback(encs[1..][m]), b).None?;
      assert decode(Fallback(encs[j + 1]), b) == FirstDecoding(decode, b, encs);
      forall m | 0 <= m < j + 1
        ensures decode(Fallback(encs[m]), b).None?
      {
        if m > 0 {
          assert encs[m] == encs[1..][m - 1];
        }
      }
    }
  }

  /** `decode_if_bytes`: text as it is; bytes through UTF-8, then the fallbacks, then "". */
  function DecodedText(c: FileContent, decode: Decoder): (r: string)
    ensures c.Str? ==> r == c.text
    ensures c.Raw? && decode(Utf8, c.bytes).Some? ==> r == decode(Utf8, c.bytes).value
    ensures c.Raw? && r == [] ==>
              || decode(Utf8, c.bytes) == Some([])
              || (exists j :: 0 <= j < |Encodings| && decode(Fallback(Encodings[j]), c.bytes) == Some([]))
              || (forall j :: 0 <= j < |Encodings| ==> decode(Fallback(Encodings[j]), c.bytes).None?)
  {
    match c
    case Str(t) => t
    case Raw(b) =>
      if decode(Utf8, b).Some? then decode(Utf8, b).value
      else
        var fb := FirstDecoding(decode, b, Encodings);
        if fb.Some? then (FirstDecodingIsFirst(decode, b, Encodings); fb.value) else ""
  }

  /** The loop of `decode_if_bytes` over the fallback encodings. */
  method DecodeIfBytes(c: FileContent, decode: Decoder) returns (r: string)
    ensures r == DecodedText(c, decode)
  {
    if c.Str? {
      return c.text;
    }
    var b := c.bytes;
    if decode(Utf8, b).Some? {
      return decode(Utf8, b).value;
    }
    var k := 0;
    while k < |Encodings|
      invariant k <= |Encodings|
      invariant FirstDecoding(decode, b, Encodings) == FirstDecoding(decode, b, Encodings[k..])
    {
      var attempt := decode(Fallback(Encodings[k]), b);
      if attempt.Some? {
        return attempt.value;
      }
      assert Encodings[k..][1..] == Encodings[k + 1..];
      k := k + 1;
    }
    return "";
  }

  /** `any(filename.endswith(t) for t in skipTypes)`. */
  predicate AnyEndsWith(filename: string, skipTypes: seq<string>)
  {
    skipTypes != [] && (EndsWith(filename, skipTypes[0]) || AnyEndsWith(filename, skipTypes[1..]))
  }

  /** `should_skip_patch`: the file name ends with one of the configured extensions. */
  function ShouldSkipPatch(filename: string, skipTypes: seq<string>): (r: bool)
    ensures r <==> filename != [] && exists t :: t in skipTypes && EndsWith(filename, t)
  {
    AnyEndsWithExists(filename, skipTypes);
    skipTypes != [] && filename != [] && AnyEndsWith(filename, skipTypes)
  }

  lemma {:induction false} AnyEndsWithExists(filename: string, skipTypes: seq<string>)
    ensures AnyEndsWith(filename, skipTypes) <==> exists t :: t in skipTypes && EndsWith(filename, t)
  {
    if skipTypes != [] {
      AnyEndsWithExists(filename, skipTypes[1..]);
      assert forall t :: t in skipTypes <==> t == skipTypes[0] || t in skipTypes[1..];
    }
  }

  /** The settings `extend_patch` reads from the configuration. */
  datatype ExtendConfig = ExtendConfig(skipTypes: seq<string>, allowDynamic: bool, beforeDynamic: int)

  /** The processor input `extend_patch` builds once both files are decoded. */
  function ExtendInput(patchStr: string, original: string, before: int, after: int, newFile: string,
                       cfg: ExtendConfig, recode: Recoder): Input
  {
    Input(GitPatchProcessing, SplitLines(patchStr), SplitLines(original), SplitLines(newFile),
          Settings(before, after, cfg.allowDynamic, cfg.beforeDynamic), recode)
  }

  /**
   * `extend_patch`: the patch unchanged when it is empty, no context is asked
   * for, the original file is missing or undecodable, or the file type is
   * skipped; otherwise the processor's output.
   */
  function ExtendPatchSpec(patchStr: string, original: FileContent, before: int, after: int, filename: string,
                           newFile: FileContent, cfg: ExtendConfig, recode: Recoder, decode: Decoder): (r: string)
    ensures patchStr == [] || (before == 0 && after == 0) || !NonEmpty(original) ==> r == patchStr
    ensures ShouldSkipPatch(filename, cfg.skipTypes) ==> r == patchStr
  {
    if patchStr == [] || (before == 0 && after == 0) || !NonEmpty(original) then patchStr
    else
      var orig := DecodedText(original, decode);
      var newText := DecodedText(newFile, decode);
      if orig == [] || ShouldSkipPatch(filename, cfg.skipTypes) then patchStr
      else Join("\n", ProcessedLines(ExtendInput(patchStr, orig, before, after, newText, cfg, recode)))
  }

  /** With no positive context asked for, `extend_patch` only splits the patch into lines and joins them again. */
  lemma {:induction false} ExtendPatchWithoutContext(patchStr: string, original: FileContent, before: int, after: int, filename: string,
                                  newFile: FileContent, cfg: ExtendConfig, recode: Recoder, decode: Decoder)
    requires before <= 0 && after <= 0
    ensures var r := ExtendPatchSpec(patchStr, original, before, after, filename, newFile, cfg, recode, decode);
            r == patchStr || r == Join("\n", SplitLines(patchStr))
  {
    var orig := DecodedText(original, decode);
    var newText := DecodedText(newFile, decode);
    UnextendedProcess(ExtendInput(patchStr, orig, before, after, newText, cfg, recode));
  }

  /** `extend_patch` with the processor run as an object. */
  method ExtendPatch(patchStr: string, original: FileContent, before: int, after: int, filename: string,
                     newFile: FileContent, cfg: ExtendConfig, recode: Recoder, decode: Decoder) returns (r: string)
    ensures r == ExtendPatchSpec(patchStr, original, before, after, filename, newFile, cfg, recode, decode)
  {
    if patchStr == [] || (before == 0 && after == 0) || !NonEmpty(original) {
      return patchStr;
    }
    var orig := DecodeIfBytes(original, decode);
    var newText := DecodeIfBytes(newFile, decode);
    if orig == [] {
      return patchStr;
    }
    if ShouldSkipPatch(filename, cfg.skipTypes) {
      return patchStr;
    }
    var processor := new PatchProcessor(GitPatchProcessing, patchStr, orig, before, after, newText,
                                        cfg.allowDynamic, cfg.beforeDynamic, recode);
    assert processor.In() == ExtendInput(patchStr, orig, before, after, newText, cfg, recode);
    r := processor.Process();
  }
}
