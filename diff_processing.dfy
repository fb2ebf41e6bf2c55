/**
 * Packing file patches into a token budget: the extended diff of every file,
 * the greedy single pass `generate_full_patch`, the multi-pass compressed
 * diff and the AI-summary insertion.
 *
 * The tokenizer is the parameter `count`; `extend_patch` with its context
 * sizes is the parameter `extend`.
 */
module DiffProcessing {
  import opened Wrappers
  import opened Text
  import opened PrTypes
  import DualView
  import DeletionHunks
  import PatchProcessing
  import TextUtils

  const DeletedFilesHeader: string := "Deleted files:\n"
  const MoreModifiedFilesHeader: string := "Additional modified files (insufficient token budget to process):\n"
  const AddedFilesHeader: string := "Additional added files (insufficient token budget to process):\n"
  const OutputBufferTokensSoftThreshold: int := 1500
  const OutputBufferTokensHardThreshold: int := 1000
  const MaxExtraLines: int := 10

  // ----- add_ai_summary_top_patch -----

  /** The text inserted below the file heading. */
  function SummaryInsert(longSummary: string): string
  {
    "\n### AI-generated changes summary:\n" + longSummary
  }

  /** A file heading starts at `pos`. */
  predicate HeadingAt(text: string, pos: nat)
    requires pos <= |text|
  {
    PrefixAt(text, pos, "## File:") || PrefixAt(text, pos, "## file:")
  }

  /** `text.startswith(lit, pos)`, character by character. */
  predicate PrefixAt(text: string, pos: nat, lit: string)
    decreases |lit|
  {
    lit == [] || (pos < |text| && text[pos] == lit[0] && PrefixAt(text, pos + 1, lit[1..]))
  }

  lemma {:induction false} PrefixAtIsStartsWith(text: string, pos: nat, lit: string)
    requires pos <= |text|
    ensures PrefixAt(text, pos, lit) <==> StartsWith(text[pos..], lit)
    decreases |lit|
  {
    if lit != [] && pos < |text| {
      PrefixAtIsStartsWith(text, pos + 1, lit[1..]);
      assert text[pos..] == [text[pos]] + text[pos + 1..];
    }
  }

  lemma {:induction false} PrefixAtRoom(text: string, pos: nat, lit: string)
    requires pos <= |text| && PrefixAt(text, pos, lit)
    ensures pos + |lit| <= |text|
    decreases |lit|
  {
    if lit != [] {
      PrefixAtRoom(text, pos + 1, lit[1..]);
    }
  }

  /** A line of `text` starts at `pos`. */
  predicate LineStart(text: string, pos: nat)
  {
    pos <= |text| && (pos == 0 || text[pos - 1] == '\n')
  }

  /** The index of the first newline at or after `pos`, or -1. */
  function NextNewline(text: string, pos: nat): (r: int)
    requires pos <= |text|
    ensures r == -1 || (pos <= r < |text| && text[r] == '\n')
    decreases |text| - pos
  {
    if pos == |text| then -1 else if text[pos] == '\n' then pos else NextNewline(text, pos + 1)
  }

  /** No newline comes before the one found, and none at all when none is found. */
  lemma {:induction false} NextNewlineFirst(text: string, pos: nat, j: nat)
    requires pos <= j < |text| && text[j] == '\n'
    ensures pos <= NextNewline(text, pos) <= j
    decreases |text| - pos
  {
    if text[pos] != '\n' {
      NextNewlineFirst(text, pos + 1, j);
    }
  }

  /** The character scan agrees with `str.find("\n", pos)`. */
  lemma NextNewlineIsFind(text: string, pos: nat)
    requires pos <= |text|
    ensures FindFrom(text, "\n", pos) == NextNewline(text, pos)
  {
    FindFromFirst(text, "\n", pos);
    var f := FindFrom(text, "\n", pos);
    var r := NextNewline(text, pos);
    if f != -1 {
      NewlineOccurs(text, f);
      NextNewlineFirst(text, pos, f);
    }
    if r != -1 {
      NewlineOccurs(text, r);
    }
  }

  lemma NewlineOccurs(s: string, j: nat)
    requires j < |s|
    ensures OccursAt(s, "\n", j) <==> s[j] == '\n'
  {
    assert s[j..j + 1] == [s[j]];
  }

  /** The end of the line starting at `pos`: its newline, or the end of the text. */
  function LineEnd(text: string, pos: nat): (e: nat)
    requires pos <= |text|
    ensures pos <= e <= |text|
  {
    var nl := NextNewline(text, pos);
    if nl == -1 then |text| else nl
  }

  /** `ins` inserted into `text` at `e`. */
  function InsertAt(text: string, e: nat, ins: string): string
    requires e <= |text|
  {
    text[..e] + ins + text[e..]
  }

  /** The walk over line starts from `pos`, inserting `ins` at the end of the first heading line. */
  function SummaryFrom(text: string, pos: nat, ins: string): (r: string)
    requires pos <= |text|
    decreases |text| - pos
  {
    var nl := NextNewline(text, pos);
    if nl == -1 then
      if HeadingAt(text, pos) then text + ins else text
    else if HeadingAt(text, pos) then InsertAt(text, nl, ins)
    else if nl + 1 >= |text| then text
    else SummaryFrom(text, nl + 1, ins)
  }

  /** `add_ai_summary_top_patch`: the summary goes right below the first file heading line. */
  method AddAiSummaryTopPatch(fullExtendedPatch: string, longSummary: string) returns (r: string)
    ensures r == SummaryFrom(fullExtendedPatch, 0, SummaryInsert(longSummary))
  {
    var toInsert := SummaryInsert(longSummary);
    var currentPos := 0;
    while true
      invariant currentPos <= |fullExtendedPatch|
      invariant SummaryFrom(fullExtendedPatch, currentPos, toInsert) == SummaryFrom(fullExtendedPatch, 0, toInsert)
      decreases |fullExtendedPatch| - currentPos
    {
      var nextNewline := FindFrom(fullExtendedPatch, "\n", currentPos);
      NextNewlineIsFind(fullExtendedPatch, currentPos);
      if nextNewline == -1 {
        if HeadingAt(fullExtendedPatch, currentPos) {
          return fullExtendedPatch + toInsert;
        }
        break;
      }
      if HeadingAt(fullExtendedPatch, currentPos) {
        return fullExtendedPatch[..nextNewline] + toInsert + fullExtendedPatch[nextNewline..];
      }
      currentPos := nextNewline + 1;
      if currentPos >= |fullExtendedPatch| {
        break;
      }
    }
    return fullExtendedPatch;
  }

  /** The heading spans eight characters of the text. */
  lemma HeadingRoom(text: string, p: nat)
    requires p <= |text| && HeadingAt(text, p)
    ensures p + 8 <= |text|
  {
    if PrefixAt(text, p, "## File:") {
      PrefixAtRoom(text, p, "## File:");
    } else {
      PrefixAtRoom(text, p, "## file:");
    }
  }

  /** Below the first heading line the summary is inserted, and nothing else changes. */
  lemma {:induction false} SummaryBelowFirstHeading(text: string, pos: nat, p: nat, ins: string)
    requires LineStart(text, pos) && pos <= p && LineStart(text, p) && HeadingAt(text, p)
    requires forall q :: pos <= q < p && LineStart(text, q) ==> !HeadingAt(text, q)
    ensures SummaryFrom(text, pos, ins) == InsertAt(text, LineEnd(text, p), ins)
    decreases |text| - pos
  {
    if p == pos {
      if NextNewline(text, pos) == -1 {
        assert text + ins == InsertAt(text, |text|, ins);
      }
    } else {
      var next := SkipLine(text, pos, p, ins);
      SummaryBelowFirstHeading(text, next, p, ins);
    }
  }

  /** A line that is not a heading, followed by a heading line, is passed over. */
  lemma SkipLine(text: string, pos: nat, p: nat, ins: string) returns (next: nat)
    requires LineStart(text, pos) && pos < p && LineStart(text, p) && HeadingAt(text, p) && !HeadingAt(text, pos)
    ensures pos < next <= p && LineStart(text, next)
    ensures SummaryFrom(text, pos, ins) == SummaryFrom(text, next, ins)
  {
    NextNewlineFirst(text, pos, p - 1);
    HeadingRoom(text, p);
    next := NextNewline(text, pos) + 1;
  }

  /** Without a heading line the text is returned unchanged. */
  lemma {:induction false} NoHeadingUnchanged(text: string, pos: nat, ins: string)
    requires LineStart(text, pos)
    requires forall q :: pos <= q <= |text| && LineStart(text, q) ==> !HeadingAt(text, q)
    ensures SummaryFrom(text, pos, ins) == text
    decreases |text| - pos
  {
    var nl := NextNewline(text, pos);
    if nl != -1 && nl + 1 < |text| {
      NoHeadingUnchanged(text, nl + 1, ins);
    }
  }

  /** Removing the inserted summary gives back the text. */
  lemma {:induction false} SummaryRemovable(text: string, pos: nat, ins: string)
    requires pos <= |text|
    ensures var r := SummaryFrom(text, pos, ins);
            r == text || exists e :: 0 <= e <= |text| && r == InsertAt(text, e, ins)
    decreases |text| - pos
  {
    var nl := NextNewline(text, pos);
    if nl == -1 {
      assert text + ins == InsertAt(text, |text|, ins);
    } else if !HeadingAt(text, pos) && nl + 1 < |text| {
      SummaryRemovable(text, nl + 1, ins);
    }
  }

  // ----- generate_full_patch -----

  /** A `file_dict` entry: the prepared patch, its token count and its edit type. */
  datatype FileEntry = FileEntry(patch: string, tokens: nat, editType: EditType)

  /** What the single pass does with one name. */
  datatype Decision = Missing | HardStop | Deferred | Included | EmptyPatch

  /** The pass's running values. */
  datatype PassState = PassState(total: int, patches: seq<string>, remaining: seq<string>, included: seq<string>)

  /** The fixed inputs of a pass. */
  datatype PassConfig = PassConfig(convertHunks: bool, fileDict: map<string, FileEntry>, maxTokensModel: int,
                                   promptTokens: nat, count: string -> nat)

  /** The decision for `name` with `total` tokens used so far. */
  function Decide(c: PassConfig, total: int, name: string): Decision
  {
    if name !in c.fileDict then Missing
    else if total > c.maxTokensModel - OutputBufferTokensHardThreshold then HardStop
    else if total + c.fileDict[name].tokens > c.maxTokensModel - OutputBufferTokensSoftThreshold then Deferred
    else if c.fileDict[name].patch != [] then Included
    else EmptyPatch
  }

  function FileHeader(name: string): string
  {
    "\n\n## File: '" + Strip(name) + "'\n\n"
  }

  /** The block an included file contributes. */
  function Block(convertHunks: bool, name: string, patch: string): string
  {
    if convertHunks then "\n\n" + Strip(patch) else FileHeader(name) + Strip(patch) + "\n"
  }

  /** The tokens charged for the block: the header's (or the blank line's) count plus the cached patch count. */
  function BlockTokens(c: PassConfig, name: string): nat
    requires name in c.fileDict
  {
    (if c.convertHunks then c.count("\n\n") else c.count(FileHeader(name))) + c.fileDict[name].tokens
  }

  function PassStep(c: PassConfig, st: PassState, name: string): PassState
  {
    match Decide(c, st.total, name)
    case Deferred => st.(remaining := st.remaining + [name])
    case Included =>
      PassState(st.total + BlockTokens(c, name), st.patches + [Block(c.convertHunks, name, c.fileDict[name].patch)],
                st.remaining, st.included + [name])
    case _ => st
  }

  /** The pass over the first `n` names. */
  function PassRun(c: PassConfig, names: seq<string>, n: nat): PassState
    requires n <= |names|
  {
    if n == 0 then PassState(c.promptTokens, [], [], [])
    else PassStep(c, PassRun(c, names, n - 1), names[n - 1])
  }

  /** `generate_full_patch`: (total, patches, deferred names, included names). */
  method GenerateFullPatch(convertHunksToLineNumbers: bool, fileDict: map<string, FileEntry>, maxTokensModel: int,
                           remainingFilesListPrev: seq<string>, promptTokens: nat, count: string -> nat)
    returns (totalTokens: int, patches: seq<string>, remainingFilesListNew: seq<string>, filesInPatchList: seq<string>)
    ensures var c := PassConfig(convertHunksToLineNumbers, fileDict, maxTokensModel, promptTokens, count);
            PassState(totalTokens, patches, remainingFilesListNew, filesInPatchList)
              == PassRun(c, remainingFilesListPrev, |remainingFilesListPrev|)
  {
    ghost var c := PassConfig(convertHunksToLineNumbers, fileDict, maxTokensModel, promptTokens, count);
    totalTokens := promptTokens;
    patches, remainingFilesListNew, filesInPatchList := [], [], [];
    var newLineTokens := count("\n\n");
    for i := 0 to |remainingFilesListPrev|
      invariant PassState(totalTokens, patches, remainingFilesListNew, filesInPatchList) == PassRun(c, remainingFilesListPrev, i)
    {
      var filename := remainingFilesListPrev[i];
      if filename !in fileDict {
        continue;
      }
      var data := fileDict[filename];
      if totalTokens > maxTokensModel - OutputBufferTokensHardThreshold {
        continue;
      }
      if totalTokens + data.tokens > maxTokensModel - OutputBufferTokensSoftThreshold {
        remainingFilesListNew := remainingFilesListNew + [filename];
        continue;
      }
      if data.patch != [] {
        var patchFinal;
        if !convertHunksToLineNumbers {
          var header := FileHeader(filename);
          patchFinal := header + Strip(data.patch) + "\n";
          var headerTokens := count(header);
          totalTokens := totalTokens + (headerTokens + data.tokens);
        } else {
          patchFinal := "\n\n" + Strip(data.patch);
          totalTokens := totalTokens + (newLineTokens + data.tokens);
        }
        patches := patches + [patchFinal];
        filesInPatchList := filesInPatchList + [filename];
      }
    }
  }

  /** The names of `names[..n]` whose decision is `d`, in order. */
  function Picked(c: PassConfig, names: seq<string>, n: nat, d: Decision): seq<string>
    requires n <= |names|
  {
    if n == 0 then []
    else Picked(c, names, n - 1, d)
         + (if Decide(c, PassRun(c, names, n - 1).total, names[n - 1]) == d then [names[n - 1]] else [])
  }

  /**
   * The running total starts at the prompt's tokens and never decreases; the
   * included names and the deferred names are exactly those whose decision
   * says so, in input order, so no position is in both.
   */
  lemma {:induction false} PassInvariant(c: PassConfig, names: seq<string>, n: nat)
    requires n <= |names|
    ensures PassRun(c, names, n).total >= c.promptTokens
    ensures PassRun(c, names, n).included == Picked(c, names, n, Included)
    ensures PassRun(c, names, n).remaining == Picked(c, names, n, Deferred)
    ensures |PassRun(c, names, n).patches| == |PassRun(c, names, n).included|
  {
    if n > 0 {
      PassInvariant(c, names, n - 1);
    }
  }

  lemma {:induction false} TotalMonotone(c: PassConfig, names: seq<string>, i: nat, j: nat)
    requires i <= j <= |names|
    ensures PassRun(c, names, i).total <= PassRun(c, names, j).total
    decreases j - i
  {
    if i < j {
      TotalMonotone(c, names, i, j - 1);
    }
  }

  /** Each included block is the file's heading (or a blank line) and its stripped patch. */
  lemma {:induction false} PassBlocks(c: PassConfig, names: seq<string>, n: nat)
    requires n <= |names|
    ensures var st := PassRun(c, names, n);
            |st.patches| == |st.included|
            && forall k :: 0 <= k < |st.patches| ==>
                 st.included[k] in c.fileDict && st.patches[k] == Block(c.convertHunks, st.included[k], c.fileDict[st.included[k]].patch)
  {
    if n > 0 {
      PassBlocks(c, names, n - 1);
    }
  }

  /** A name missing from the dictionary is neither included nor deferred. */
  lemma {:induction false} MissingNeitherListed(c: PassConfig, names: seq<string>, n: nat, name: string)
    requires n <= |names| && name !in c.fileDict
    ensures name !in PassRun(c, names, n).included && name !in PassRun(c, names, n).remaining
  {
    if n > 0 {
      MissingNeitherListed(c, names, n - 1, name);
    }
  }

  /** An included file fitted under the soft threshold, and a deferred one did not. */
  lemma ThresholdsRespected(c: PassConfig, names: seq<string>, k: nat)
    requires k < |names| && names[k] in c.fileDict
    ensures var total := PassRun(c, names, k).total;
            var d := Decide(c, total, names[k]);
            && (d == Included ==> total + c.fileDict[names[k]].tokens <= c.maxTokensModel - OutputBufferTokensSoftThreshold)
            && (d == Deferred ==> total <= c.maxTokensModel - OutputBufferTokensHardThreshold
                                  && total + c.fileDict[names[k]].tokens > c.maxTokensModel - OutputBufferTokensSoftThreshold)
            && (d == HardStop <==> total > c.maxTokensModel - OutputBufferTokensHardThreshold)
  {
  }

  // ----- pr_generate_extended_diff -----

  /** The fields of a file the diff builders read, apart from its token count. */
  datatype FileData = FileData(filename: string, baseFile: string, headFile: string, patch: string,
                               editType: EditType, aiSummary: Option<string>)

  function Data(f: FilePatchInfo): FileData
    reads f`filename, f`baseFile, f`headFile, f`patch, f`editType, f`aiFileSummary
  {
    FileData(f.filename, f.baseFile, f.headFile, f.patch, f.editType, f.aiFileSummary)
  }

  /** The files of all language groups, group after group. */
  function Flatten(groups: seq<seq<FilePatchInfo>>): seq<FilePatchInfo>
  {
    if groups == [] then [] else Flatten(groups[..|groups| - 1]) + groups[|groups| - 1]
  }

  lemma FlattenSnoc(groups: seq<seq<FilePatchInfo>>, g: nat)
    requires g < |groups|
    ensures Flatten(groups[..g + 1]) == Flatten(groups[..g]) + groups[g]
  {
    assert groups[..g + 1][..g] == groups[..g];
  }

  /** Where the `g`-th group starts in the flattened list. */
  function Offset(groups: seq<seq<FilePatchInfo>>, g: nat): nat
    requires g <= |groups|
  {
    if g == 0 then 0 else Offset(groups, g - 1) + |groups[g - 1]|
  }

  lemma {:induction false} OffsetIsFlatten(groups: seq<seq<FilePatchInfo>>, g: nat)
    requires g <= |groups|
    ensures Offset(groups, g) == |Flatten(groups[..g])|
  {
    if g > 0 {
      OffsetIsFlatten(groups, g - 1);
      FlattenSnoc(groups, g - 1);
    }
  }

  /** The `g`-th group sits in the flattened list from its offset on. */
  lemma GroupAt(groups: seq<seq<FilePatchInfo>>, g: nat)
    requires g < |groups|
    ensures Offset(groups, g) + |groups[g]| <= |Flatten(groups)|
    ensures forall k :: 0 <= k < |groups[g]| ==> Flatten(groups)[Offset(groups, g) + k] == groups[g][k]
  {
    OffsetIsFlatten(groups, g);
    FlattenSnoc(groups, g);
    FlattenPrefix(groups, g + 1);
    GroupWritten(Flatten(groups), Flatten(groups[..g]), groups[g], Offset(groups, g));
  }

  lemma OffsetEnd(groups: seq<seq<FilePatchInfo>>)
    ensures Offset(groups, |groups|) == |Flatten(groups)|
  {
    OffsetIsFlatten(groups, |groups|);
    assert groups[..|groups|] == groups;
  }

  lemma {:induction false} FlattenPrefix(groups: seq<seq<FilePatchInfo>>, g: nat)
    requires g <= |groups|
    ensures Flatten(groups[..g]) <= Flatten(groups)
    decreases |groups| - g
  {
    if g == |groups| {
      assert groups[..g] == groups;
    } else {
      FlattenPrefix(groups, g + 1);
      FlattenSnoc(groups, g);
    }
  }

  function DataOf(fs: seq<FilePatchInfo>): (r: seq<FileData>)
    reads fs
    ensures |r| == |fs|
  {
    if fs == [] then [] else DataOf(fs[..|fs| - 1]) + [Data(fs[|fs| - 1])]
  }

  lemma {:induction false} DataOfAt(fs: seq<FilePatchInfo>, k: nat)
    requires k < |fs|
    ensures DataOf(fs)[k] == Data(fs[k])
  {
    if k < |fs| - 1 {
      DataOfAt(fs[..|fs| - 1], k);
    }
  }

  /** The fixed inputs of the extended diff: `extend_patch`'s settings and oracles, the two flags and the tokenizer. */
  datatype ExtendArgs = ExtendArgs(before: int, after: int, cfg: PatchProcessing.ExtendConfig,
                                   recode: PatchProcessing.Recoder, decode: PatchProcessing.Decoder,
                                   addLineNumbers: bool, enableAiMetadata: bool, count: string -> nat)

  /** The patch with its extra context lines. */
  function Extended(d: FileData, a: ExtendArgs): string
  {
    PatchProcessing.ExtendPatchSpec(d.patch, PatchProcessing.Str(d.baseFile), a.before, a.after, d.filename,
                                    PatchProcessing.Str(d.headFile), a.cfg, a.recode, a.decode)
  }

  /** The summary of a file with one, when the metadata is enabled, goes under its heading. */
  function WithSummary(t: string, d: FileData, a: ExtendArgs): string
  {
    if d.aiSummary.Some? && a.enableAiMetadata then SummaryFrom(t, 0, SummaryInsert(d.aiSummary.value)) else t
  }

  /**
   * The text one file contributes: none for an empty patch or an empty
   * extension; else the dual view (line numbers on) or the heading and the
   * stripped extension with a blank line before each hunk.
   */
  function Render(d: FileData, a: ExtendArgs): Result<Option<string>>
  {
    if d.patch == [] then Ok(None)
    else
      var ext := Extended(d, a);
      if ext == [] then Ok(None)
      else if a.addLineNumbers then
        match DualView.Decouple(ext, Some(DualView.FileRef(d.filename, Some(d.editType))), DualView.AsWritten)
        case Err(e) => Err(e)
        case Ok(t) => Ok(Some(WithSummary(t, d, a)))
      else Ok(Some(WithSummary(Block(false, d.filename, ReplaceAll(ext, "\n@@ ", "\n\n@@ ")), d, a)))
  }

  /** The extended diff so far: the texts, the running total and the per-text counts. */
  datatype ExtState = ExtState(patches: seq<string>, total: int, tokens: seq<nat>)

  /** What one file's outcome does to the extended diff: its text is appended and counted; an error stays. */
  function ExtStep(r: Result<ExtState>, o: Result<Option<string>>, count: string -> nat): Result<ExtState>
  {
    match r
    case Err(e) => Err(e)
    case Ok(st) =>
      match o
      case Err(e) => Err(e)
      case Ok(None) => Ok(st)
      case Ok(Some(p)) => Ok(Add(st, p, count))
  }

  /** The state once the text `p` is appended and counted. */
  function Add(st: ExtState, p: string, count: string -> nat): ExtState
  {
    ExtState(st.patches + [p], st.total + count(p), st.tokens + [count(p)])
  }

  /** The outcome of every file, in order. */
  function RendersOf(ds: seq<FileData>, a: ExtendArgs): (r: seq<Result<Option<string>>>)
    ensures |r| == |ds|
  {
    if ds == [] then [] else RendersOf(ds[..|ds| - 1], a) + [Render(ds[|ds| - 1], a)]
  }

  lemma {:induction false} RendersOfAt(ds: seq<FileData>, a: ExtendArgs, k: nat)
    requires k < |ds|
    ensures RendersOf(ds, a)[k] == Render(ds[k], a)
  {
    if k < |ds| - 1 {
      RendersOfAt(ds[..|ds| - 1], a, k);
    }
  }

  /** The extended diff built from the outcomes `outs`, starting at the prompt's tokens. */
  function ExtFold(outs: seq<Result<Option<string>>>, n: nat, count: string -> nat, promptTokens: nat): Result<ExtState>
    requires n <= |outs|
  {
    if n == 0 then Ok(ExtState([], promptTokens, []))
    else ExtStep(ExtFold(outs, n - 1, count, promptTokens), outs[n - 1], count)
  }

  /** The extended diff of the files `ds`, in order; the first error stops it. */
  function ExtRun(ds: seq<FileData>, a: ExtendArgs, promptTokens: nat): Result<ExtState>
  {
    ExtFold(RendersOf(ds, a), |ds|, a.count, promptTokens)
  }

  /** The fold over the first `n` outcomes does not look past them. */
  lemma {:induction false} ExtFoldAppend(outs: seq<Result<Option<string>>>, more: seq<Result<Option<string>>>, n: nat,
                                         count: string -> nat, promptTokens: nat)
    requires n <= |outs|
    ensures ExtFold(outs + more, n, count, promptTokens) == ExtFold(outs, n, count, promptTokens)
  {
    if n > 0 {
      ExtFoldAppend(outs, more, n - 1, count, promptTokens);
      assert (outs + more)[n - 1] == outs[n - 1];
    }
  }

  /** Once the fold over a prefix fails, the fold over the whole fails the same way. */
  lemma {:induction false} ExtFoldErrPrefix(outs: seq<Result<Option<string>>>, count: string -> nat, promptTokens: nat, n: nat)
    requires n <= |outs| && ExtFold(outs, n, count, promptTokens).Err?
    ensures ExtFold(outs, |outs|, count, promptTokens) == ExtFold(outs, n, count, promptTokens)
    decreases |outs| - n
  {
    if n < |outs| {
      ExtFoldErrPrefix(outs, count, promptTokens, n + 1);
    }
  }

  /** The token count a file holds afterwards: that of its text, or the old one when it has none. */
  function NewTokens(previous: int, o: Result<Option<string>>, count: string -> nat): int
  {
    match o
    case Ok(Some(p)) => count(p)
    case _ => previous
  }

  /** The text of one file, step by step as the loop body does it. */
  method ExtendFile(d: FileData, a: ExtendArgs) returns (r: Result<Option<string>>)
    ensures r == Render(d, a)
  {
    if d.patch == [] {
      return Ok(None);
    }
    var extendedPatch := PatchProcessing.ExtendPatch(d.patch, PatchProcessing.Str(d.baseFile), a.before, a.after,
                                                     d.filename, PatchProcessing.Str(d.headFile), a.cfg, a.recode, a.decode);
    if extendedPatch == [] {
      return Ok(None);
    }
    var fullExtendedPatch;
    if a.addLineNumbers {
      var decoupled := DualView.DecoupleAndConvert(extendedPatch, Some(DualView.FileRef(d.filename, Some(d.editType))),
                                                   DualView.AsWritten);
      if decoupled.Err? {
        return Err(decoupled.error);
      }
      fullExtendedPatch := decoupled.value;
    } else {
      var spaced := ReplaceAll(extendedPatch, "\n@@ ", "\n\n@@ ");
      fullExtendedPatch := FileHeader(d.filename) + Strip(spaced) + "\n";
    }
    if d.aiSummary.Some? && a.enableAiMetadata {
      fullExtendedPatch := AddAiSummaryTopPatch(fullExtendedPatch, d.aiSummary.value);
    }
    return Ok(Some(fullExtendedPatch));
  }

  /** Equal entries of `xs` sit where `ys` has equal entries too. */
  ghost predicate Coherent<X, Y>(xs: seq<X>, ys: seq<Y>)
  {
    |xs| == |ys| && forall k, i :: 0 <= k < |xs| && 0 <= i < |xs| && xs[k] == xs[i] ==> ys[k] == ys[i]
  }

  lemma CoherentTrans<X, Y, Z>(xs: seq<X>, ys: seq<Y>, zs: seq<Z>)
    requires Coherent(xs, ys) && Coherent(ys, zs)
    ensures Coherent(xs, zs)
  {
  }

  /**
   * `outs` holds the outcome of every file of `ds`. The trigger keeps the
   * outcomes folded until a file is actually rendered.
   */
  ghost predicate Rendered(ds: seq<FileData>, a: ExtendArgs, outs: seq<Result<Option<string>>>)
  {
    |outs| == |ds| && forall k {:trigger Render(ds[k], a)} :: 0 <= k < |ds| ==> outs[k] == Render(ds[k], a)
  }

  lemma RenderedOf(ds: seq<FileData>, a: ExtendArgs)
    ensures Rendered(ds, a, RendersOf(ds, a))
  {
    forall k | 0 <= k < |ds|
      ensures RendersOf(ds, a)[k] == Render(ds[k], a)
    {
      RendersOfAt(ds, a, k);
    }
  }

  /** Files with the same data have the same outcome. */
  lemma RenderedCoherent(ds: seq<FileData>, a: ExtendArgs, outs: seq<Result<Option<string>>>)
    requires Rendered(ds, a, outs)
    ensures Coherent(ds, outs)
  {
    forall k, i | 0 <= k < |ds| && 0 <= i < |ds| && ds[k] == ds[i]
      ensures outs[k] == outs[i]
    {
      assert outs[k] == Render(ds[k], a) && outs[i] == Render(ds[i], a);
    }
  }

  function TokensOf(fs: seq<FilePatchInfo>): (r: seq<int>)
    reads fs
    ensures |r| == |fs|
  {
    if fs == [] then [] else TokensOf(fs[..|fs| - 1]) + [fs[|fs| - 1].tokens]
  }

  /** The same file has the same data wherever it sits. */
  lemma DataOfCoherent(fs: seq<FilePatchInfo>)
    ensures Coherent(fs, DataOf(fs))
  {
    forall k, i | 0 <= k < |fs| && 0 <= i < |fs| && fs[k] == fs[i]
      ensures DataOf(fs)[k] == DataOf(fs)[i]
    {
      DataOfAt(fs, k);
      DataOfAt(fs, i);
    }
  }

  lemma {:induction false} TokensOfAt(fs: seq<FilePatchInfo>, k: nat)
    requires k < |fs|
    ensures TokensOf(fs)[k] == fs[k].tokens
  {
    if k < |fs| - 1 {
      TokensOfAt(fs[..|fs| - 1], k);
    }
  }

  /** The counts `ts` of the files `fs` once the file `f` holds `v`: every position that holds `f` changes. */
  function Retokened(ts: seq<int>, fs: seq<FilePatchInfo>, f: FilePatchInfo, v: int): (r: seq<int>)
    requires |ts| == |fs|
    ensures |r| == |ts| && forall k :: 0 <= k < |ts| ==> r[k] == if fs[k] == f then v else ts[k]
  {
    seq(|ts|, k requires 0 <= k < |ts| => if fs[k] == f then v else ts[k])
  }

  /** The count of every file once all of them have been through the loop. */
  function Retokens(orig: seq<int>, outs: seq<Result<Option<string>>>, count: string -> nat): (r: seq<int>)
    requires |orig| == |outs|
    ensures |r| == |orig| && forall k :: 0 <= k < |orig| ==> r[k] == NewTokens(orig[k], outs[k], count)
  {
    seq(|orig|, k requires 0 <= k < |orig| => NewTokens(orig[k], outs[k], count))
  }

  /**
   * The counts `ts` after the first `done` files: those have their new count;
   * a later one has its old count, or its new one when it also sits earlier.
   */
  ghost predicate Progress(ts: seq<int>, orig: seq<int>, outs: seq<Result<Option<string>>>, count: string -> nat, done: nat)
  {
    && |ts| == |orig| == |outs| && done <= |ts|
    && (forall k {:trigger ts[k]} :: 0 <= k < done ==> ts[k] == NewTokens(orig[k], outs[k], count))
    && (forall k {:trigger ts[k]} :: 0 <= k < |ts| ==> ts[k] == orig[k] || ts[k] == NewTokens(orig[k], outs[k], count))
  }

  /** One more file through the loop: its count is written at each of its positions when it has a text. */
  lemma ProgressStep(ts: seq<int>, orig: seq<int>, outs: seq<Result<Option<string>>>, count: string -> nat,
                     all: seq<FilePatchInfo>, m: nat)
    requires Progress(ts, orig, outs, count, m) && Coherent(all, outs) && m < |all|
    ensures outs[m].Ok? && outs[m].value.Some? ==>
              Progress(Retokened(ts, all, all[m], count(outs[m].value.value)), orig, outs, count, m + 1)
    ensures !(outs[m].Ok? && outs[m].value.Some?) ==> Progress(ts, orig, outs, count, m + 1)
  {
  }

  lemma ProgressDone(ts: seq<int>, orig: seq<int>, outs: seq<Result<Option<string>>>, count: string -> nat)
    requires Progress(ts, orig, outs, count, |ts|)
    ensures ts == Retokens(orig, outs, count)
  {
  }

  /** `file.tokens = patch_tokens`, seen from the list of every file. */
  method SetTokens(f: FilePatchInfo, v: int, ghost all: seq<FilePatchInfo>)
    modifies f
    ensures TokensOf(all) == Retokened(old(TokensOf(all)), all, f, v)
    ensures DataOf(all) == old(DataOf(all))
  {
    ghost var before := TokensOf(all);
    ghost var data := DataOf(all);
    forall k | 0 <= k < |all|
      ensures before[k] == all[k].tokens || all[k] == f
      ensures data[k] == Data(all[k])
    {
      TokensOfAt(all, k);
      DataOfAt(all, k);
    }
    f.tokens := v;
    forall k | 0 <= k < |all|
      ensures TokensOf(all)[k] == Retokened(before, all, f, v)[k]
      ensures DataOf(all)[k] == data[k]
    {
      TokensOfAt(all, k);
      DataOfAt(all, k);
    }
  }

  /** The outcome of the `m`-th file, computed from its data. */
  method RenderAt(d: FileData, a: ExtendArgs, ghost ds: seq<FileData>, ghost outs: seq<Result<Option<string>>>, ghost m: nat)
    returns (r: Result<Option<string>>)
    requires m < |ds| && d == ds[m] && Rendered(ds, a, outs)
    ensures r == outs[m]
  {
    r := ExtendFile(d, a);
  }

  /**
   * The files of one language group, which sit at `offset` in the list `all`
   * of every file, as the inner loop goes over them. `snap`, `outs` and
   * `orig` are the data, outcomes and counts of `all` when the extended
   * diff started; `ts` follows the counts.
   */
  method ExtendGroup(files: seq<FilePatchInfo>, a: ExtendArgs, st0: ExtState, ghost all: seq<FilePatchInfo>,
                     ghost offset: nat, ghost snap: seq<FileData>, ghost outs: seq<Result<Option<string>>>,
                     ghost orig: seq<int>, ghost ts0: seq<int>, ghost promptTokens: nat)
    returns (r: Result<ExtState>, ghost ts: seq<int>)
    requires offset + |files| <= |all| && forall k :: 0 <= k < |files| ==> all[offset + k] == files[k]
    requires Rendered(snap, a, outs) && Coherent(all, outs)
    requires DataOf(all) == snap && TokensOf(all) == ts0
    requires Progress(ts0, orig, outs, a.count, offset)
    requires ExtFold(outs, offset, a.count, promptTokens) == Ok(st0)
    modifies files
    ensures DataOf(all) == snap && TokensOf(all) == ts
    ensures r.Err? ==> r == ExtFold(outs, |outs|, a.count, promptTokens)
    ensures r.Ok? ==> r == ExtFold(outs, offset + |files|, a.count, promptTokens)
    ensures r.Ok? ==> Progress(ts, orig, outs, a.count, offset + |files|)
  {
    var st := st0;
    ts := ts0;
    for j := 0 to |files|
      invariant DataOf(all) == snap && TokensOf(all) == ts
      invariant ExtFold(outs, offset + j, a.count, promptTokens) == Ok(st)
      invariant Progress(ts, orig, outs, a.count, offset + j)
    {
      var next;
      next, ts := ExtendOne(files[j], a, st, all, offset + j, snap, outs, orig, ts, promptTokens);
      if next.Err? {
        ExtFoldErrPrefix(outs, a.count, promptTokens, offset + j + 1);
        return next, ts;
      }
      st := next.value;
    }
    r := Ok(st);
  }

  /** The inner loop's body for the `m`-th file of `all`. */
  method ExtendOne(file: FilePatchInfo, a: ExtendArgs, st: ExtState, ghost all: seq<FilePatchInfo>, ghost m: nat,
                   ghost snap: seq<FileData>, ghost outs: seq<Result<Option<string>>>, ghost orig: seq<int>,
                   ghost ts0: seq<int>, ghost promptTokens: nat)
    returns (r: Result<ExtState>, ghost ts: seq<int>)
    requires m < |all| && all[m] == file
    requires Rendered(snap, a, outs) && Coherent(all, outs)
    requires DataOf(all) == snap && TokensOf(all) == ts0
    requires Progress(ts0, orig, outs, a.count, m) && ExtFold(outs, m, a.count, promptTokens) == Ok(st)
    modifies file
    ensures DataOf(all) == snap && TokensOf(all) == ts
    ensures r == ExtFold(outs, m + 1, a.count, promptTokens)
    ensures r.Ok? ==> Progress(ts, orig, outs, a.count, m + 1)
  {
    ts := ts0;
    DataOfAt(all, m);
    var rendered := RenderAt(Data(file), a, snap, outs, m);
    if rendered.Err? {
      return Err(rendered.error), ts;
    }
    ProgressStep(ts, orig, outs, a.count, all, m);
    r := Ok(st);
    if rendered.value.Some? {
      var patchTokens := a.count(rendered.value.value);
      SetTokens(file, patchTokens, all);
      ts := Retokened(ts, all, file, patchTokens);
      r := Ok(Add(st, rendered.value.value, a.count));
    }
  }

  /**
   * `pr_generate_extended_diff`: the texts, the total and the counts of the
   * files of all groups, in order. Each file with a text has its `tokens` set
   * to that text's count; no other field changes.
   */
  method PrGenerateExtendedDiff(prLanguages: seq<seq<FilePatchInfo>>, promptTokens: nat, a: ExtendArgs)
    returns (r: Result<ExtState>)
    modifies Flatten(prLanguages)
    ensures r == ExtRun(old(DataOf(Flatten(prLanguages))), a, promptTokens)
    ensures DataOf(Flatten(prLanguages)) == old(DataOf(Flatten(prLanguages)))
    ensures r.Ok? ==> TokensOf(Flatten(prLanguages))
                        == Retokens(old(TokensOf(Flatten(prLanguages))), RendersOf(old(DataOf(Flatten(prLanguages))), a), a.count)
  {
    ghost var all := Flatten(prLanguages);
    ghost var snap := DataOf(all);
    ghost var outs := RendersOf(snap, a);
    RenderedOf(snap, a);
    RenderedCoherent(snap, a, outs);
    DataOfCoherent(all);
    CoherentTrans(all, snap, outs);
    OffsetEnd(prLanguages);
    ghost var ts;
    r, ts := ExtendGroups(prLanguages, promptTokens, a, all, snap, outs, TokensOf(all));
  }

  /** The two loops of `pr_generate_extended_diff`, against the outcomes `outs` of the data `snap` of the files `all`. */
  method ExtendGroups(prLanguages: seq<seq<FilePatchInfo>>, promptTokens: nat, a: ExtendArgs, ghost all: seq<FilePatchInfo>,
                      ghost snap: seq<FileData>, ghost outs: seq<Result<Option<string>>>, ghost orig: seq<int>)
    returns (r: Result<ExtState>, ghost ts: seq<int>)
    requires all == Flatten(prLanguages) && Offset(prLanguages, |prLanguages|) == |all|
    requires snap == DataOf(all) && orig == TokensOf(all) && Rendered(snap, a, outs) && Coherent(all, outs)
    modifies all
    ensures DataOf(all) == snap && TokensOf(all) == ts
    ensures r == ExtFold(outs, |outs|, a.count, promptTokens)
    ensures r.Ok? ==> ts == Retokens(orig, outs, a.count)
  {
    ts := orig;
    var st := ExtState([], promptTokens, []);
    ghost var done: nat := 0;
    for g := 0 to |prLanguages|
      invariant done == Offset(prLanguages, g) <= |all|
      invariant DataOf(all) == snap && TokensOf(all) == ts
      invariant ExtFold(outs, done, a.count, promptTokens) == Ok(st)
      invariant Progress(ts, orig, outs, a.count, done)
    {
      var next;
      next, ts := ExtendNext(prLanguages, g, a, st, all, done, snap, outs, orig, ts, promptTokens);
      if next.Err? {
        return next, ts;
      }
      st := next.value;
      done := Offset(prLanguages, g + 1);
    }
    ProgressDone(ts, orig, outs, a.count);
    r := Ok(st);
  }

  /** The outer loop's body for the `g`-th group, which starts at `done`. */
  method ExtendNext(prLanguages: seq<seq<FilePatchInfo>>, g: nat, a: ExtendArgs, st: ExtState, ghost all: seq<FilePatchInfo>,
                    ghost done: nat, ghost snap: seq<FileData>, ghost outs: seq<Result<Option<string>>>,
                    ghost orig: seq<int>, ghost ts0: seq<int>, ghost promptTokens: nat)
    returns (r: Result<ExtState>, ghost ts: seq<int>)
    requires g < |prLanguages| && all == Flatten(prLanguages) && done == Offset(prLanguages, g)
    requires Rendered(snap, a, outs) && Coherent(all, outs)
    requires DataOf(all) == snap && TokensOf(all) == ts0
    requires Progress(ts0, orig, outs, a.count, done)
    requires ExtFold(outs, done, a.count, promptTokens) == Ok(st)
    modifies all
    ensures Offset(prLanguages, g + 1) <= |all|
    ensures DataOf(all) == snap && TokensOf(all) == ts
    ensures r.Err? ==> r == ExtFold(outs, |outs|, a.count, promptTokens)
    ensures r.Ok? ==> r == ExtFold(outs, Offset(prLanguages, g + 1), a.count, promptTokens)
    ensures r.Ok? ==> Progress(ts, orig, outs, a.count, Offset(prLanguages, g + 1))
  {
    GroupAt(prLanguages, g);
    r, ts := ExtendGroup(prLanguages[g], a, st, all, done, snap, outs, orig, ts0, promptTokens);
  }

  /** Position `offset + k` of `all` holds the group's `k`-th file. */
  lemma GroupWritten(all: seq<FilePatchInfo>, before: seq<FilePatchInfo>, files: seq<FilePatchInfo>, offset: nat)
    requires before + files <= all && offset == |before|
    ensures offset + |files| <= |all| && forall k :: 0 <= k < |files| ==> all[offset + k] == files[k]
  {
    forall k | 0 <= k < |files|
      ensures all[offset + k] == files[k]
    {
      assert all[offset + k] == (before + files)[offset + k];
    }
  }

  function SumNat(xs: seq<nat>): nat
  {
    if xs == [] then 0 else SumNat(xs[..|xs| - 1]) + xs[|xs| - 1]
  }

  /**
   * The total is the prompt's tokens plus the count of every text, one count
   * per text, each that text's count, and never more texts than files.
   */
  lemma {:induction false} ExtendedTotals(outs: seq<Result<Option<string>>>, n: nat, count: string -> nat, promptTokens: nat)
    requires n <= |outs|
    ensures var r := ExtFold(outs, n, count, promptTokens);
            r.Ok? ==>
              && r.value.total == promptTokens + SumNat(r.value.tokens)
              && |r.value.patches| == |r.value.tokens| <= n
              && forall k :: 0 <= k < |r.value.tokens| ==> r.value.tokens[k] == count(r.value.patches[k])
  {
    if n > 0 {
      ExtendedTotals(outs, n - 1, count, promptTokens);
      var r := ExtFold(outs, n, count, promptTokens);
      if r.Ok? {
        var st := ExtFold(outs, n - 1, count, promptTokens).value;
        if r.value != st {
          assert r.value.tokens[..|r.value.tokens| - 1] == st.tokens;
        }
      }
    }
  }

  /** A file without a patch adds nothing and leaves the totals as they were. */
  lemma EmptyPatchSkipped(ds: seq<FileData>, d: FileData, a: ExtendArgs, promptTokens: nat)
    requires d.patch == []
    ensures ExtRun(ds + [d], a, promptTokens) == ExtRun(ds, a, promptTokens)
  {
    assert (ds + [d])[..|ds|] == ds;
    ExtFoldAppend(RendersOf(ds, a), [Render(d, a)], |ds|, a.count, promptTokens);
  }

  /** Without line numbers and metadata a text is the file's heading, then its stripped, re-spaced extension. */
  lemma PlainTextIsHeaded(d: FileData, a: ExtendArgs)
    requires !a.addLineNumbers && !a.enableAiMetadata
    requires Render(d, a).Ok? && Render(d, a).value.Some?
    ensures var t := Render(d, a).value.value;
            t == FileHeader(d.filename) + Strip(ReplaceAll(Extended(d, a), "\n@@ ", "\n\n@@ ")) + "\n"
            && StartsWith(t, "\n\n## File: '")
  {
  }
}
