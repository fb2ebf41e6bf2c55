/**
 * `pr_processing`: the diff handed to a tool. `get_pr_diff` gives the extended
 * diff when it fits the model, else the first document of the compressed diff
 * followed by the lists of files it left out; `get_pr_multi_diffs` cuts the
 * files into chunks that each fit the model; the model fallback tries the
 * configured models (and their deployments) in order.
 *
 * The git provider's calls are inputs: the files, already grouped by language,
 * and the outcome of fetching them (`fetchError`, an exception it raised).
 * The tokenizer is the parameter `count`, the prompt's tokens `promptTokens`,
 * and the model's limit the table lookup of `Tokens.GetMaxTokens`.
 */
module PrProcessing {
  import opened Wrappers
  import opened Text
  import opened PrTypes
  import Tokens
  import DualView
  import DeletionHunks
  import TextUtils
  import PatchProcessing
  import opened DiffProcessing
  import opened CompressedDiff

  // ----- settings -----

  /** The configuration values the two diff builders read. */
  datatype Settings = Settings(tokenEconomyMode: bool, patchExtraLinesBefore: int, patchExtraLinesAfter: int,
                               cfg: PatchProcessing.ExtendConfig, recode: PatchProcessing.Recoder,
                               decode: PatchProcessing.Decoder, enableAiMetadata: bool, maxAiCalls: int,
                               largePatchPolicy: Option<string>)

  /** What `get_max_tokens(model)` looks at. */
  datatype ModelLimit = ModelLimit(model: string, table: map<string, int>, customModelMaxTokens: int,
                                   maxModelTokens: int)

  function MaxTokens(lim: ModelLimit): Result<int>
  {
    Tokens.GetMaxTokens(lim.model, lim.table, lim.customModelMaxTokens, lim.maxModelTokens)
  }

  /** `cap_and_log_extra_lines`: values above the cap become the cap; all others, negatives too, stay. */
  function CapAndLogExtraLines(value: int): (r: int)
    ensures r <= MaxExtraLines
    ensures value <= MaxExtraLines ==> r == value
    ensures value > MaxExtraLines ==> r == MaxExtraLines
  {
    if value > MaxExtraLines then MaxExtraLines else value
  }

  /** The extra context lines before and after each hunk. */
  function ExtraLines(disableExtraLines: bool, s: Settings): (r: (int, int))
    ensures disableExtraLines ==> r == (0, 0)
    ensures !disableExtraLines && s.tokenEconomyMode ==> r == (1, 1)
    ensures !disableExtraLines && !s.tokenEconomyMode ==>
              r == (CapAndLogExtraLines(s.patchExtraLinesBefore), CapAndLogExtraLines(s.patchExtraLinesAfter))
    ensures r.0 <= MaxExtraLines && r.1 <= MaxExtraLines
  {
    if disableExtraLines then (0, 0)
    else if s.tokenEconomyMode then (1, 1)
    else (CapAndLogExtraLines(s.patchExtraLinesBefore), CapAndLogExtraLines(s.patchExtraLinesAfter))
  }

  /** The extended diff's inputs under these settings. */
  function ArgsFor(s: Settings, disableExtraLines: bool, addLineNumbers: bool, count: string -> nat): ExtendArgs
  {
    var lines := ExtraLines(disableExtraLines, s);
    ExtendArgs(lines.0, lines.1, s.cfg, s.recode, s.decode, addLineNumbers, s.enableAiMetadata, count)
  }

  // ----- the trailer of get_pr_diff -----

  const DeltaTokens: int := 10

  /** The names of `order`, in order, that are not in `inPatch` and whose edit type is one of `kinds`. */
  function Listed(order: seq<string>, dict: map<string, FileEntry>, inPatch: seq<string>, kinds: set<EditType>)
    : seq<string>
    requires forall k :: k in order ==> k in dict
  {
    if order == [] then []
    else
      var k := order[|order| - 1];
      Listed(order[..|order| - 1], dict, inPatch, kinds)
        + (if k !in inPatch && dict[k].editType in kinds then [k] else [])
  }

  /** Each name on its own line, each line led by a newline. */
  function NameLines(names: seq<string>): string
  {
    if names == [] then "" else NameLines(names[..|names| - 1]) + "\n" + names[|names| - 1]
  }

  /** A list: its heading and its names, or nothing when there are no names. */
  function ListText(heading: string, names: seq<string>): string
  {
    if names == [] then "" else heading + NameLines(names)
  }

  /** The three lists: added files, modified or renamed files, deleted files. */
  function FileLists(order: seq<string>, dict: map<string, FileEntry>, inPatch: seq<string>): (string, string, string)
    requires forall k :: k in order ==> k in dict
  {
    (ListText(AddedFilesHeader, Listed(order, dict, inPatch, {Added})),
     ListText(MoreModifiedFilesHeader, Listed(order, dict, inPatch, {Modified, Renamed})),
     ListText(DeletedFilesHeader, Listed(order, dict, inPatch, {Deleted})))
  }

  /** A list clipped to `budget`, with the truncation note and without cutting at the last line. */
  function Clipped(list: string, budget: int, count: string -> nat): string
  {
    Tokens.ClipTokens(list, budget, count(list), true, false)
  }

  /** The text with the clipped list after a blank line, unless it clipped to nothing, and the tokens used. */
  function AppendList(text: string, curr: int, list: string, maxTokens: int, count: string -> nat): (string, int)
  {
    var clipped := Clipped(list, maxTokens - curr, count);
    if clipped != [] then (text + "\n\n" + clipped, curr + count(clipped) + 2) else (text, curr)
  }

  /** The compressed diff's lists in the shape `pr_generate_compressed_diff` gives them. */
  predicate WellShaped(c: Compressed)
  {
    && 1 <= |c.patchesList| && |c.totalTokensList| == |c.patchesList| == |c.filesInPatchesList|
    && (forall k :: k in c.fileOrder ==> k in c.fileDict)
  }

  /**
   * The first document with the three lists after it, each clipped to what
   * the model leaves; the lists are empty when no more than ten tokens are
   * left.
   */
  function Trailered(c: Compressed, maxTokensModel: int, count: string -> nat): string
    requires WellShaped(c)
  {
    var maxTokens := maxTokensModel - OutputBufferTokensHardThreshold;
    AppendLists(Join("\n", c.patchesList[0]), c.totalTokensList[0], TrailerLists(c, maxTokens), maxTokens, count)
  }

  /** The three lists when more than ten tokens are left after the first document, else three empty ones. */
  function TrailerLists(c: Compressed, maxTokens: int): (string, string, string)
    requires WellShaped(c)
  {
    if maxTokens - c.totalTokensList[0] > DeltaTokens then FileLists(c.fileOrder, c.fileDict, c.filesInPatchesList[0])
    else ("", "", "")
  }

  /** The lists appended in turn, added, modified, deleted, each clipped to what the ones before left. */
  function AppendLists(text: string, curr: int, lists: (string, string, string), maxTokens: int,
                       count: string -> nat): string
  {
    var afterAdded := AppendList(text, curr, lists.0, maxTokens, count);
    var afterModified := AppendList(afterAdded.0, afterAdded.1, lists.1, maxTokens, count);
    AppendList(afterModified.0, afterModified.1, lists.2, maxTokens, count).0
  }

  /** What `get_pr_diff` returns: the diff, or with `return_remaining_files` also the deferred names. */
  datatype PrDiff = Diff(text: string) | DiffAndRemaining(text: string, remaining: seq<string>)

  /** The pruned diff: nothing for a large PR split into several documents, else the first with the trailer. */
  function Pruned(c: Compressed, maxTokensModel: int, largePrHandling: bool, returnRemainingFiles: bool,
                  count: string -> nat): PrDiff
    requires WellShaped(c)
  {
    if largePrHandling && |c.patchesList| > 1 then Diff("")
    else
      var text := Trailered(c, maxTokensModel, count);
      if returnRemainingFiles then DiffAndRemaining(text, c.remainingFilesList) else Diff(text)
  }

  /**
   * `get_pr_diff` on the files' data `ds` (before the extended diff
   * recounts them) and their records `langs` (after): the extended diff when
   * it leaves the soft buffer free, else the pruned compressed diff.
   */
  function PrDiffSpec(ds: seq<FileData>, langs: seq<seq<Rec>>, s: Settings, lim: ModelLimit, promptTokens: nat,
                      count: string -> nat, addLineNumbersToHunks: bool, disableExtraLines: bool,
                      largePrHandling: bool, returnRemainingFiles: bool): Result<PrDiff>
  {
    PrDiffAfter(ExtRun(ds, ArgsFor(s, disableExtraLines, addLineNumbersToHunks, count), promptTokens), langs, s, lim,
                promptTokens, count, addLineNumbersToHunks, largePrHandling, returnRemainingFiles)
  }

  /** `get_pr_diff` once the extended diff has been attempted: its failure, the model's, or the diff. */
  function PrDiffAfter(ext: Result<ExtState>, langs: seq<seq<Rec>>, s: Settings, lim: ModelLimit, promptTokens: nat,
                       count: string -> nat, addLineNumbersToHunks: bool, largePrHandling: bool,
                       returnRemainingFiles: bool): Result<PrDiff>
  {
    match ext
    case Err(e) => Err(e)
    case Ok(ext) =>
      match MaxTokens(lim)
      case Err(e) => Err(e)
      case Ok(m) =>
        PrDiffFrom(ext, m, langs, s, lim, promptTokens, count, addLineNumbersToHunks, largePrHandling,
                   returnRemainingFiles)
  }

  /** `get_pr_diff` once the extended diff `ext` and the model's limit `m` are known. */
  function PrDiffFrom(ext: ExtState, m: int, langs: seq<seq<Rec>>, s: Settings, lim: ModelLimit, promptTokens: nat,
                      count: string -> nat, addLineNumbersToHunks: bool, largePrHandling: bool,
                      returnRemainingFiles: bool): Result<PrDiff>
  {
    if ext.total + OutputBufferTokensSoftThreshold < m then Ok(Diff(Join("\n", ext.patches)))
    else
      var comp := CompressedSpec(langs, addLineNumbersToHunks, largePrHandling, s.maxAiCalls, MaxTokens(lim),
                                 promptTokens, count);
      if comp.Err? then Err(comp.error)
      else
        CompressedShape(langs, addLineNumbersToHunks, largePrHandling, s.maxAiCalls, MaxTokens(lim),
                        promptTokens, count);
        Ok(Pruned(comp.value, m, largePrHandling, returnRemainingFiles, count))
  }

  /** `get_pr_diff`; a failure to fetch the files is raised again unchanged. */
  method GetPrDiff(prLanguages: seq<seq<FilePatchInfo>>, fetchError: Option<Error>, s: Settings, lim: ModelLimit,
                   promptTokens: nat, count: string -> nat, addLineNumbersToHunks: bool, disableExtraLines: bool,
                   largePrHandling: bool, returnRemainingFiles: bool)
    returns (r: Result<PrDiff>)
    modifies Flatten(prLanguages)
    ensures fetchError.Some? ==> r == Err(fetchError.value)
    ensures fetchError.None? ==>
              r == PrDiffSpec(old(DataOf(Flatten(prLanguages))), LangRecs(prLanguages), s, lim, promptTokens, count,
                              addLineNumbersToHunks, disableExtraLines, largePrHandling, returnRemainingFiles)
  {
    if fetchError.Some? {
      return Err(fetchError.value);
    }
    var a := ArgsFor(s, disableExtraLines, addLineNumbersToHunks, count);
    var patchesExtended := PrGenerateExtendedDiff(prLanguages, promptTokens, a);
    r := DiffAfterExtended(prLanguages, patchesExtended, s, lim, promptTokens, count, addLineNumbersToHunks,
                           largePrHandling, returnRemainingFiles);
  }

  /** `get_pr_diff` after the extended diff was attempted. */
  method DiffAfterExtended(prLanguages: seq<seq<FilePatchInfo>>, patchesExtended: Result<ExtState>, s: Settings,
                           lim: ModelLimit, promptTokens: nat, count: string -> nat, addLineNumbersToHunks: bool,
                           largePrHandling: bool, returnRemainingFiles: bool)
    returns (r: Result<PrDiff>)
    ensures r == PrDiffAfter(patchesExtended, LangRecs(prLanguages), s, lim, promptTokens, count,
                             addLineNumbersToHunks, largePrHandling, returnRemainingFiles)
  {
    if patchesExtended.Err? {
      return Err(patchesExtended.error);
    }
    var maxTokens := MaxTokens(lim);
    if maxTokens.Err? {
      return Err(maxTokens.error);
    }
    r := PrunedDiff(prLanguages, patchesExtended.value, maxTokens.value, s, lim, promptTokens, count,
                    addLineNumbersToHunks, largePrHandling, returnRemainingFiles);
  }

  /** `get_pr_diff` after the extended diff: the full diff when it fits, else the pruned compressed diff. */
  method PrunedDiff(prLanguages: seq<seq<FilePatchInfo>>, patchesExtended: ExtState, maxTokens: int, s: Settings,
                    lim: ModelLimit, promptTokens: nat, count: string -> nat, addLineNumbersToHunks: bool,
                    largePrHandling: bool, returnRemainingFiles: bool)
    returns (r: Result<PrDiff>)
    requires MaxTokens(lim) == Ok(maxTokens)
    ensures r == PrDiffFrom(patchesExtended, maxTokens, LangRecs(prLanguages), s, lim, promptTokens, count,
                            addLineNumbersToHunks, largePrHandling, returnRemainingFiles)
  {
    if patchesExtended.total + OutputBufferTokensSoftThreshold < maxTokens {
      return Ok(Diff(Join("\n", patchesExtended.patches)));
    }
    var compressed := PrGenerateCompressedDiff(prLanguages, addLineNumbersToHunks, largePrHandling, s.maxAiCalls,
                                               lim.model, lim.table, lim.customModelMaxTokens, lim.maxModelTokens,
                                               promptTokens, count);
    if compressed.Err? {
      return Err(compressed.error);
    }
    CompressedShape(LangRecs(prLanguages), addLineNumbersToHunks, largePrHandling, s.maxAiCalls, MaxTokens(lim),
                    promptTokens, count);
    var pruned := Prune(compressed.value, maxTokens, largePrHandling, returnRemainingFiles, count);
    r := Ok(pruned);
  }

  /** The part of `get_pr_diff` after the compressed diff. */
  method Prune(c: Compressed, maxTokensModel: int, largePrHandling: bool, returnRemainingFiles: bool,
               count: string -> nat)
    returns (r: PrDiff)
    requires WellShaped(c)
    ensures r == Pruned(c, maxTokensModel, largePrHandling, returnRemainingFiles, count)
  {
    if largePrHandling && |c.patchesList| > 1 {
      return Diff("");
    }
    var finalDiff := Trailer(c, maxTokensModel, count);
    if !returnRemainingFiles {
      return Diff(finalDiff);
    }
    return DiffAndRemaining(finalDiff, c.remainingFilesList);
  }

  /** The first document and, room permitting, the lists of the files it leaves out. */
  method Trailer(c: Compressed, maxTokensModel: int, count: string -> nat) returns (finalDiff: string)
    requires WellShaped(c)
    ensures finalDiff == Trailered(c, maxTokensModel, count)
  {
    var patchesCompressed := c.patchesList[0];
    var totalTokensNew := c.totalTokensList[0];
    var filesInPatch := c.filesInPatchesList[0];
    var maxTokens := maxTokensModel - OutputBufferTokensHardThreshold;
    var currToken := totalTokensNew;
    finalDiff := Join("\n", patchesCompressed);
    var addedListStr, modifiedListStr, deletedListStr := "", "", "";
    if maxTokens - currToken > DeltaTokens {
      addedListStr, modifiedListStr, deletedListStr := BuildFileLists(c.fileOrder, c.fileDict, filesInPatch);
    }
    assert (addedListStr, modifiedListStr, deletedListStr) == TrailerLists(c, maxTokens);
    finalDiff := AppendAll(finalDiff, currToken, addedListStr, modifiedListStr, deletedListStr, maxTokens, count);
  }

  /** The three lists appended in turn, the tokens each uses counted against the next. */
  method AppendAll(finalDiff0: string, currToken0: int, addedListStr: string, modifiedListStr: string,
                   deletedListStr: string, maxTokens: int, count: string -> nat)
    returns (finalDiff: string)
    ensures finalDiff == AppendLists(finalDiff0, currToken0, (addedListStr, modifiedListStr, deletedListStr),
                                     maxTokens, count)
  {
    var currToken;
    finalDiff, currToken := AppendClipped(finalDiff0, currToken0, addedListStr, maxTokens, count);
    finalDiff, currToken := AppendClipped(finalDiff, currToken, modifiedListStr, maxTokens, count);
    finalDiff, currToken := AppendClipped(finalDiff, currToken, deletedListStr, maxTokens, count);
  }

  /** One list clipped to the tokens left and appended after a blank line, unless it clipped to nothing. */
  method AppendClipped(finalDiff0: string, currToken0: int, listStr: string, maxTokens: int, count: string -> nat)
    returns (finalDiff: string, currToken: int)
    ensures (finalDiff, currToken) == AppendList(finalDiff0, currToken0, listStr, maxTokens, count)
  {
    finalDiff, currToken := finalDiff0, currToken0;
    var clipped := Clipped(listStr, maxTokens - currToken, count);
    if clipped != [] {
      finalDiff := finalDiff + "\n\n" + clipped;
      currToken := currToken + count(clipped) + 2;
    }
  }

  /** The loop over the dictionary in insertion order that builds the three lists. */
  method BuildFileLists(order: seq<string>, dict: map<string, FileEntry>, filesInPatch: seq<string>)
    returns (added: string, modified: string, deleted: string)
    requires forall k :: k in order ==> k in dict
    ensures (added, modified, deleted) == FileLists(order, dict, filesInPatch)
  {
    added, modified, deleted := "", "", "";
    for i := 0 to |order|
      invariant added == ListText(AddedFilesHeader, Listed(order[..i], dict, filesInPatch, {Added}))
      invariant modified == ListText(MoreModifiedFilesHeader, Listed(order[..i], dict, filesInPatch, {Modified, Renamed}))
      invariant deleted == ListText(DeletedFilesHeader, Listed(order[..i], dict, filesInPatch, {Deleted}))
    {
      added, modified, deleted := ListFile(order, i, dict, filesInPatch, added, modified, deleted);
    }
    assert order[..|order|] == order;
  }

  /** The loop body for the `i`-th name: it goes on the list of its kind unless the first document has it. */
  method ListFile(order: seq<string>, i: nat, dict: map<string, FileEntry>, filesInPatch: seq<string>,
                  added0: string, modified0: string, deleted0: string)
    returns (added: string, modified: string, deleted: string)
    requires i < |order| && forall k :: k in order ==> k in dict
    requires added0 == ListText(AddedFilesHeader, Listed(order[..i], dict, filesInPatch, {Added}))
    requires modified0 == ListText(MoreModifiedFilesHeader, Listed(order[..i], dict, filesInPatch, {Modified, Renamed}))
    requires deleted0 == ListText(DeletedFilesHeader, Listed(order[..i], dict, filesInPatch, {Deleted}))
    ensures added == ListText(AddedFilesHeader, Listed(order[..i + 1], dict, filesInPatch, {Added}))
    ensures modified == ListText(MoreModifiedFilesHeader, Listed(order[..i + 1], dict, filesInPatch, {Modified, Renamed}))
    ensures deleted == ListText(DeletedFilesHeader, Listed(order[..i + 1], dict, filesInPatch, {Deleted}))
  {
    added, modified, deleted := added0, modified0, deleted0;
    var filename := order[i];
    ListTextSnoc(AddedFilesHeader, order, dict, filesInPatch, {Added}, i);
    ListTextSnoc(MoreModifiedFilesHeader, order, dict, filesInPatch, {Modified, Renamed}, i);
    ListTextSnoc(DeletedFilesHeader, order, dict, filesInPatch, {Deleted}, i);
    if filename in filesInPatch {
      return;
    }
    var editType := dict[filename].editType;
    if editType == Added {
      if added == [] {
        added := AddedFilesHeader + "\n" + filename;
      } else {
        added := added + "\n" + filename;
      }
    } else if editType in {Modified, Renamed} {
      if modified == [] {
        modified := MoreModifiedFilesHeader + "\n" + filename;
      } else {
        modified := modified + "\n" + filename;
      }
    } else if editType == Deleted {
      if deleted == [] {
        deleted := DeletedFilesHeader + "\n" + filename;
      } else {
        deleted := deleted + "\n" + filename;
      }
    }
  }

  /** One more name of the order extends the list of its kind by a line, starting it when it was empty. */
  lemma ListTextSnoc(heading: string, order: seq<string>, dict: map<string, FileEntry>, inPatch: seq<string>,
                     kinds: set<EditType>, i: nat)
    requires heading != [] && i < |order| && forall k :: k in order ==> k in dict
    ensures var prev := ListText(heading, Listed(order[..i], dict, inPatch, kinds));
            var x := order[i];
            ListText(heading, Listed(order[..i + 1], dict, inPatch, kinds))
              == if x in inPatch || dict[x].editType !in kinds then prev
                 else if prev == [] then heading + "\n" + x
                 else prev + "\n" + x
  {
    ListedSnoc(order, dict, inPatch, kinds, i);
    var x := order[i];
    if x !in inPatch && dict[x].editType in kinds {
      ListTextAppend(heading, Listed(order[..i], dict, inPatch, kinds), x);
    } else {
      var names := Listed(order[..i], dict, inPatch, kinds);
      assert names + [] == names;
    }
  }

  lemma ListedSnoc(order: seq<string>, dict: map<string, FileEntry>, inPatch: seq<string>,
                   kinds: set<EditType>, i: nat)
    requires i < |order| && forall k :: k in order ==> k in dict
    ensures Listed(order[..i + 1], dict, inPatch, kinds)
              == Listed(order[..i], dict, inPatch, kinds)
                 + (if order[i] !in inPatch && dict[order[i]].editType in kinds then [order[i]] else [])
  {
    var o := order[..i + 1];
    assert o[..|o| - 1] == order[..i] && o[|o| - 1] == order[i];
  }

  lemma ListTextAppend(heading: string, names: seq<string>, x: string)
    requires heading != []
    ensures ListText(heading, names + [x])
              == if ListText(heading, names) == [] then heading + "\n" + x else ListText(heading, names) + "\n" + x
  {
    assert (names + [x])[..|names|] == names;
    assert NameLines(names + [x]) == NameLines(names) + "\n" + x;
    if names != [] {
      assert heading + (NameLines(names) + "\n" + x) == (heading + NameLines(names)) + "\n" + x;
    } else {
      assert heading + ("" + "\n" + x) == heading + "\n" + x;
    }
  }

  // ----- properties of get_pr_diff -----

  /**
   * A name is listed exactly when it is in the order, not in the first
   * document and of a listed kind; a list has no name twice.
   */
  lemma {:induction false} ListedSpec(order: seq<string>, dict: map<string, FileEntry>, inPatch: seq<string>,
                                      kinds: set<EditType>)
    requires forall k :: k in order ==> k in dict
    ensures forall x :: (x in Listed(order, dict, inPatch, kinds))
                          <==> (x in order && x !in inPatch && dict[x].editType in kinds)
    ensures TextUtils.NoDuplicates(order) ==> TextUtils.NoDuplicates(Listed(order, dict, inPatch, kinds))
  {
    if order != [] {
      var init := order[..|order| - 1];
      assert order == init + [order[|order| - 1]];
      ListedSpec(init, dict, inPatch, kinds);
      if TextUtils.NoDuplicates(order) {
        assert order[|order| - 1] !in init;
      }
    }
  }

  /** A list is empty exactly when it names no file. */
  lemma ListTextEmpty(heading: string, names: seq<string>)
    requires heading != []
    ensures ListText(heading, names) == [] <==> names == []
  {
  }

  /**
   * The files of the dictionary the first document leaves out each go to the
   * one list of their kind: added, modified or renamed, deleted; a file of
   * unknown kind goes to none.
   */
  lemma ListsByKind(c: Compressed, k: string)
    requires WellShaped(c) && k in c.fileOrder && k !in c.filesInPatchesList[0]
    ensures var order, inPatch := c.fileOrder, c.filesInPatchesList[0];
            && (k in Listed(order, c.fileDict, inPatch, {Added}) <==> c.fileDict[k].editType == Added)
            && ((k in Listed(order, c.fileDict, inPatch, {Modified, Renamed}))
                  <==> c.fileDict[k].editType in {Modified, Renamed})
            && (k in Listed(order, c.fileDict, inPatch, {Deleted}) <==> c.fileDict[k].editType == Deleted)
  {
    ListedSpec(c.fileOrder, c.fileDict, c.filesInPatchesList[0], {Added});
    ListedSpec(c.fileOrder, c.fileDict, c.filesInPatchesList[0], {Modified, Renamed});
    ListedSpec(c.fileOrder, c.fileDict, c.filesInPatchesList[0], {Deleted});
  }

  /** A file in the first document is on no list. */
  lemma InPatchNotListed(c: Compressed, k: string, kinds: set<EditType>)
    requires WellShaped(c) && k in c.filesInPatchesList[0]
    ensures k !in Listed(c.fileOrder, c.fileDict, c.filesInPatchesList[0], kinds)
  {
    ListedSpec(c.fileOrder, c.fileDict, c.filesInPatchesList[0], kinds);
  }

  /** The pruned diff starts with the first document; with ten tokens or fewer to spare it is that document. */
  lemma TrailerAfterFirstDocument(c: Compressed, maxTokensModel: int, count: string -> nat)
    requires WellShaped(c)
    ensures var first := Join("\n", c.patchesList[0]);
            && StartsWith(Trailered(c, maxTokensModel, count), first)
            && ((maxTokensModel - OutputBufferTokensHardThreshold - c.totalTokensList[0] <= DeltaTokens)
                  ==> Trailered(c, maxTokensModel, count) == first)
  {
    var maxTokens := maxTokensModel - OutputBufferTokensHardThreshold;
    AppendListsExtend(Join("\n", c.patchesList[0]), c.totalTokensList[0], TrailerLists(c, maxTokens), maxTokens, count);
  }

  /** Appending the lists keeps the text before them, and appending empty lists changes nothing. */
  lemma AppendListsExtend(text: string, curr: int, lists: (string, string, string), maxTokens: int,
                          count: string -> nat)
    ensures StartsWith(AppendLists(text, curr, lists, maxTokens, count), text)
    ensures lists == ("", "", "") ==> AppendLists(text, curr, lists, maxTokens, count) == text
  {
    var afterAdded := AppendList(text, curr, lists.0, maxTokens, count);
    var afterModified := AppendList(afterAdded.0, afterAdded.1, lists.1, maxTokens, count);
    var last := AppendList(afterModified.0, afterModified.1, lists.2, maxTokens, count);
    AppendListExtends(text, curr, lists.0, maxTokens, count);
    AppendListExtends(afterAdded.0, afterAdded.1, lists.1, maxTokens, count);
    AppendListExtends(afterModified.0, afterModified.1, lists.2, maxTokens, count);
    StartsWithTrans(last.0, afterModified.0, afterAdded.0);
    StartsWithTrans(last.0, afterAdded.0, text);
  }

  /** Appending a list keeps what came before it. */
  lemma AppendListExtends(text: string, curr: int, list: string, maxTokens: int, count: string -> nat)
    ensures StartsWith(AppendList(text, curr, list, maxTokens, count).0, text)
    ensures list == [] ==> AppendList(text, curr, list, maxTokens, count) == (text, curr)
  {
    var r := AppendList(text, curr, list, maxTokens, count).0;
    assert r[..|text|] == text;
  }

  lemma StartsWithTrans(a: string, b: string, c: string)
    requires StartsWith(a, b) && StartsWith(b, c)
    ensures StartsWith(a, c)
  {
    assert a[..|c|] == b[..|c|];
  }

  /**
   * `get_pr_diff`'s cases once the extended diff and the model's limit are
   * known: the joined extended diff when it leaves the soft buffer free;
   * otherwise, for a large PR split into several documents, nothing; else a
   * text starting with the first document, paired with the deferred names
   * exactly when they are asked for.
   */
  lemma PrDiffCases(ds: seq<FileData>, langs: seq<seq<Rec>>, s: Settings, lim: ModelLimit, promptTokens: nat,
                    count: string -> nat, addLineNumbersToHunks: bool, disableExtraLines: bool,
                    largePrHandling: bool, returnRemainingFiles: bool)
    requires ExtRun(ds, ArgsFor(s, disableExtraLines, addLineNumbersToHunks, count), promptTokens).Ok?
    requires MaxTokens(lim).Ok?
    ensures var ext := ExtRun(ds, ArgsFor(s, disableExtraLines, addLineNumbersToHunks, count), promptTokens).value;
            var m := MaxTokens(lim).value;
            var r := PrDiffSpec(ds, langs, s, lim, promptTokens, count, addLineNumbersToHunks, disableExtraLines,
                                largePrHandling, returnRemainingFiles);
            var comp := CompressedSpec(langs, addLineNumbersToHunks, largePrHandling, s.maxAiCalls, MaxTokens(lim),
                                       promptTokens, count);
            && (ext.total + OutputBufferTokensSoftThreshold < m ==> r == Ok(Diff(Join("\n", ext.patches))))
            && (ext.total + OutputBufferTokensSoftThreshold >= m && comp.Err? ==> r == Err(comp.error))
            && (ext.total + OutputBufferTokensSoftThreshold >= m && comp.Ok? ==>
                  && r.Ok?
                  && (largePrHandling && |comp.value.patchesList| > 1 ==> r.value == Diff(""))
                  && (!(largePrHandling && |comp.value.patchesList| > 1) ==>
                        && StartsWith(r.value.text, Join("\n", comp.value.patchesList[0]))
                        && (r.value.DiffAndRemaining? <==> returnRemainingFiles)
                        && (returnRemainingFiles ==> r.value.remaining == comp.value.remainingFilesList)))
  {
    var ext := ExtRun(ds, ArgsFor(s, disableExtraLines, addLineNumbersToHunks, count), promptTokens).value;
    var comp := CompressedSpec(langs, addLineNumbersToHunks, largePrHandling, s.maxAiCalls, MaxTokens(lim),
                               promptTokens, count);
    if ext.total + OutputBufferTokensSoftThreshold >= MaxTokens(lim).value && comp.Ok? {
      CompressedShape(langs, addLineNumbersToHunks, largePrHandling, s.maxAiCalls, MaxTokens(lim), promptTokens, count);
      TrailerAfterFirstDocument(comp.value, MaxTokens(lim).value, count);
    }
  }

  // ----- get_pr_diff_multiple_patchs -----

  /** `get_pr_diff_multiple_patchs`: the compressed diff with large-PR handling on. */
  method GetPrDiffMultiplePatchs(prLanguages: seq<seq<FilePatchInfo>>, fetchError: Option<Error>, s: Settings,
                                 lim: ModelLimit, promptTokens: nat, count: string -> nat,
                                 addLineNumbersToHunks: bool)
    returns (r: Result<Compressed>)
    ensures fetchError.Some? ==> r == Err(fetchError.value)
    ensures fetchError.None? ==>
              r == CompressedSpec(LangRecs(prLanguages), addLineNumbersToHunks, true, s.maxAiCalls, MaxTokens(lim),
                                  promptTokens, count)
  {
    if fetchError.Some? {
      return Err(fetchError.value);
    }
    r := PrGenerateCompressedDiff(prLanguages, addLineNumbersToHunks, true, s.maxAiCalls, lim.model, lim.table,
                                  lim.customModelMaxTokens, lim.maxModelTokens, promptTokens, count);
  }

  // ----- model fallback -----

  /** A list setting given as a list, or as one comma-separated string. */
  datatype ListSetting = AsList(items: seq<string>) | AsText(text: string)

  /** The model settings: `config.model`, `config.model_weak`, `config.model_reasoning` ("" when unset) and the fallbacks. */
  datatype ModelSettings = ModelSettings(model: string, modelWeak: string, modelReasoning: string,
                                         fallbackModels: ListSetting)

  /** The pieces of a comma-separated string, each stripped. */
  function CommaItems(text: string): (r: seq<string>)
    ensures |r| >= 1
  {
    var parts := Split(text, ",");
    seq(|parts|, i requires 0 <= i < |parts| => Strip(parts[i]))
  }

  /** `get_model`: the weak or reasoning model when one is set, else the regular one. */
  function GetModel(ms: ModelSettings, modelType: ModelType): (r: string)
    ensures modelType == RegularModel ==> r == ms.model
    ensures modelType == WeakModel ==> r == (if ms.modelWeak != [] then ms.modelWeak else ms.model)
    ensures modelType == ReasoningModel ==> r == (if ms.modelReasoning != [] then ms.modelReasoning else ms.model)
  {
    match modelType
    case WeakModel => if ms.modelWeak != [] then ms.modelWeak else ms.model
    case ReasoningModel => if ms.modelReasoning != [] then ms.modelReasoning else ms.model
    case RegularModel => ms.model
  }

  /** `_get_all_models`: the model of the type asked for, then the fallbacks. */
  function GetAllModels(ms: ModelSettings, modelType: ModelType): (r: seq<string>)
    ensures |r| >= 1 && r[0] == GetModel(ms, modelType)
    ensures ms.fallbackModels.AsList? ==> r[1..] == ms.fallbackModels.items
    ensures ms.fallbackModels.AsText? ==> r[1..] == CommaItems(ms.fallbackModels.text)
  {
    var fallbacks := match ms.fallbackModels
      case AsList(items) => items
      case AsText(text) => CommaItems(text);
    [GetModel(ms, modelType)] + fallbacks
  }

  /**
   * `_get_all_deployments`: the deployment and its fallbacks, which must
   * be at least as many as the models; with no fallbacks, the deployment
   * once per model. An empty string of fallbacks counts as none.
   */
  function GetAllDeployments(allModels: seq<string>, deploymentId: Option<string>, fallbacks: ListSetting)
    : (r: Result<seq<Option<string>>>)
    ensures r.Ok? ==> |r.value| >= |allModels| && (|allModels| > 0 ==> r.value[0] == deploymentId)
    ensures r.Err? ==> r.error.ValueError?
  {
    var items := match fallbacks
      case AsList(xs) => xs
      case AsText(text) => if text == [] then [] else CommaItems(text);
    if items != [] then
      var all := [deploymentId] + seq(|items|, i requires 0 <= i < |items| => Some(items[i]));
      if |all| < |allModels| then Err(ValueError("The number of deployments is less than the number of models"))
      else Ok(all)
    else Ok(seq(|allModels|, _ => deploymentId))
  }

  /** Without fallback deployments every model gets the deployment; with them, too few is an error. */
  lemma DeploymentsCover(allModels: seq<string>, deploymentId: Option<string>, fallbacks: ListSetting)
    ensures (fallbacks == AsList([]) || fallbacks == AsText("")) ==>
              GetAllDeployments(allModels, deploymentId, fallbacks) == Ok(seq(|allModels|, _ => deploymentId))
    ensures fallbacks.AsList? && fallbacks.items != [] ==>
              (GetAllDeployments(allModels, deploymentId, fallbacks).Err? <==> 1 + |fallbacks.items| < |allModels|)
  {
  }

  /** The message raised once every model failed. */
  const AllModelsFailed: string := "Failed to generate prediction with any model"

  /** The outcome of trying the pairs from `i` on: the first success, or the failure after the last. */
  function FirstSuccess<T>(models: seq<string>, deployments: seq<Option<string>>,
                           call: (string, Option<string>) -> Result<T>, i: nat): Result<T>
    requires |deployments| >= |models|
    decreases |models| - i
  {
    if i >= |models| then Err(Failure(AllModelsFailed))
    else match call(models[i], deployments[i])
      case Ok(v) => Ok(v)
      case Err(_) => FirstSuccess(models, deployments, call, i + 1)
  }

  /** A success is the first pair's that succeeds, every earlier one failed; failure means every pair failed. */
  lemma {:induction false} FirstSuccessSpec<T>(models: seq<string>, deployments: seq<Option<string>>,
                                               call: (string, Option<string>) -> Result<T>, i: nat)
    requires |deployments| >= |models|
    decreases |models| - i
    ensures var r := FirstSuccess(models, deployments, call, i);
            && (r.Ok? ==> exists k :: i <= k < |models| && call(models[k], deployments[k]) == r
                                      && forall j :: i <= j < k ==> call(models[j], deployments[j]).Err?)
            && (r.Err? <==> forall j :: i <= j < |models| ==> call(models[j], deployments[j]).Err?)
            && (r.Err? ==> r == Err(Failure(AllModelsFailed)))
  {
    if i < |models| {
      FirstSuccessSpec(models, deployments, call, i + 1);
    }
  }

  /** `retry_with_fallback_models`: `call` is the model call, made with a model and a deployment. */
  method RetryWithFallbackModels<T>(ms: ModelSettings, modelType: ModelType, deploymentId: Option<string>,
                                    fallbackDeployments: ListSetting, call: (string, Option<string>) -> Result<T>)
    returns (r: Result<T>)
    ensures var allModels := GetAllModels(ms, modelType);
            var deployments := GetAllDeployments(allModels, deploymentId, fallbackDeployments);
            && (deployments.Err? ==> r == Err(deployments.error))
            && (deployments.Ok? ==> r == FirstSuccess(allModels, deployments.value, call, 0))
  {
    var allModels := GetAllModels(ms, modelType);
    var allDeployments := GetAllDeployments(allModels, deploymentId, fallbackDeployments);
    if allDeployments.Err? {
      return Err(allDeployments.error);
    }
    var deployments := allDeployments.value;
    var i := 0;
    while true
      invariant i < |allModels|
      invariant FirstSuccess(allModels, deployments, call, i) == FirstSuccess(allModels, deployments, call, 0)
      decreases |allModels| - i
    {
      var outcome := call(allModels[i], deployments[i]);
      if outcome.Ok? {
        return outcome;
      }
      if i == |allModels| - 1 {
        return Err(Failure(AllModelsFailed));
      }
      i := i + 1;
    }
  }

  // ----- get_pr_multi_diffs -----

  /**
   * Whether the helpers `get_pr_multi_diffs` calls are in scope: as written
   * they are not imported; `WithImports` is the evidently intended module.
   */
  datatype Imports = MissingImports | WithImports

  /**
   * The text one file contributes to a chunk: none for an empty patch or a
   * removed file; else the patch without its deletion-only hunks, in the
   * dual view or under its heading, with the summary when there is one.
   * As written, the helpers it calls are not imported, so the first patch
   * raises a `NameError`.
   */
  function ChunkText(d: FileData, a: ExtendArgs, imports: Imports): Result<Option<string>>
  {
    if d.patch == [] then Ok(None)
    else if imports == MissingImports then Err(NameError("handle_patch_deletions"))
    else
      match DeletionHunks.HandlePatchDeletions(d.patch, d.baseFile, d.headFile, d.filename, d.editType)
      case None => Ok(None)
      case Some(p) =>
        var t := if a.addLineNumbers then
                   DualView.Decouple(p, Some(DualView.FileRef(d.filename, Some(d.editType))), DualView.AsWritten)
                 else Ok(Block(false, d.filename, p));
        match t
        case Err(e) => Err(e)
        case Ok(q) => Ok(Some(WithSummary(q, d, a)))
  }

  /** The chunker's fixed inputs. */
  datatype ChunkConfig = ChunkConfig(maxTokensModel: int, promptTokens: nat, maxCalls: int,
                                     largePatchPolicy: Option<string>, count: string -> nat)

  /** The budget of one chunk. */
  function Budget(c: ChunkConfig): int
  {
    c.maxTokensModel - OutputBufferTokensSoftThreshold
  }

  /**
   * The large-patch policy: a text that fits beside the prompt stays; one
   * that does not is skipped, or with the policy "clip" clipped to the
   * budget at a line end and skipped if it still does not fit.
   */
  function Admitted(p: string, c: ChunkConfig): (r: Option<string>)
    ensures r.Some? && r.value != [] ==> c.promptTokens + c.count(r.value) <= Budget(c)
    ensures p == [] || c.promptTokens + c.count(p) <= Budget(c) ==> r == Some(p)
    ensures p != [] && c.promptTokens + c.count(p) > Budget(c) && c.largePatchPolicy != Some("clip") ==> r == None
    ensures p != [] && c.promptTokens + c.count(p) > Budget(c) && r.Some? ==>
              r.value == Tokens.ClipTokens(p, Budget(c) - c.promptTokens, c.count(p), true, true)
  {
    if p != [] && c.promptTokens + c.count(p) > Budget(c) then
      if c.largePatchPolicy.GetOr("skip") == "skip" then None
      else if c.largePatchPolicy == Some("clip") then
        var clipped := Tokens.ClipTokens(p, Budget(c) - c.promptTokens, c.count(p), true, true);
        if clipped != [] && c.promptTokens + c.count(clipped) > Budget(c) then None else Some(clipped)
      else None
    else Some(p)
  }

  /** The chunker's state: the finished chunks, the current one, its tokens, and the call number. */
  datatype ChunkState = ChunkState(closed: seq<seq<string>>, patches: seq<string>, total: int, callNumber: int)

  /**
   * An admitted text goes into the current chunk; when it does not fit, the
   * current chunk is finished first and a new one started, unless that
   * would exceed the number of calls. An empty text goes nowhere.
   */
  function Place(st: ChunkState, p: string, c: ChunkConfig): ChunkState
  {
    var n := c.count(p);
    if p != [] && st.total + n > Budget(c) then
      var flushed := ChunkState(st.closed + [st.patches], [], c.promptTokens, st.callNumber + 1);
      if flushed.callNumber > c.maxCalls then flushed
      else flushed.(patches := [p], total := c.promptTokens + n)
    else if p != [] then st.(patches := st.patches + [p], total := st.total + n)
    else st
  }

  /** The chunker over the first `n` texts; it stops once the calls are used up, and the first error stops it. */
  function ChunkFold(texts: seq<Result<Option<string>>>, n: nat, c: ChunkConfig): Result<ChunkState>
    requires n <= |texts|
  {
    if n == 0 then Ok(ChunkState([], [], c.promptTokens, 1))
    else
      match ChunkFold(texts, n - 1, c)
      case Err(e) => Err(e)
      case Ok(st) =>
        if st.callNumber > c.maxCalls then Ok(st)
        else
          match texts[n - 1]
          case Err(e) => Err(e)
          case Ok(None) => Ok(st)
          case Ok(Some(p)) =>
            match Admitted(p, c)
            case None => Ok(st)
            case Some(q) => Ok(Place(st, q, c))
  }

  /** Each finished chunk joined by newlines, and the current one, stripped, when it has texts. */
  function ChunkResult(st: ChunkState): seq<string>
  {
    seq(|st.closed|, k requires 0 <= k < |st.closed| => Join("\n", st.closed[k]))
      + (if st.patches != [] then [Strip(Join("\n", st.patches))] else [])
  }

  function ChunkTexts(recs: seq<Rec>, a: ExtendArgs, imports: Imports): (r: seq<Result<Option<string>>>)
    ensures |r| == |recs| && forall k :: 0 <= k < |recs| ==> r[k] == ChunkText(recs[k].data, a, imports)
  {
    seq(|recs|, k requires 0 <= k < |recs| => ChunkText(recs[k].data, a, imports))
  }

  /** The chunks of the texts `texts`, or the error that stopped the chunker. */
  function ChunkOutcome(texts: seq<Result<Option<string>>>, c: ChunkConfig): Result<seq<string>>
  {
    match ChunkFold(texts, |texts|, c)
    case Err(e) => Err(e)
    case Ok(st) => Ok(ChunkResult(st))
  }

  function ChunkRun(sorted: seq<Rec>, a: ExtendArgs, c: ChunkConfig, imports: Imports): Result<seq<string>>
  {
    ChunkOutcome(ChunkTexts(sorted, a, imports), c)
  }

  /**
   * `get_pr_multi_diffs` on the files' data `ds` (before the extended diff
   * recounts them) and their records `langs` (after): the extended diff as
   * one chunk (none when it has no texts) when it leaves the soft buffer
   * free, else the chunks of the files sorted by tokens within each
   * language.
   */
  function MultiDiffsSpec(ds: seq<FileData>, langs: seq<seq<Rec>>, s: Settings, lim: ModelLimit, promptTokens: nat,
                          count: string -> nat, maxCalls: int, addLineNumbers: bool, imports: Imports)
    : Result<seq<string>>
  {
    var a := ArgsFor(s, false, addLineNumbers, count);
    MultiDiffsAfter(ExtRun(ds, a, promptTokens), langs, a, s, lim, promptTokens, count, maxCalls, imports)
  }

  /** `get_pr_multi_diffs` once the extended diff has been attempted with arguments `a`. */
  function MultiDiffsAfter(ext: Result<ExtState>, langs: seq<seq<Rec>>, a: ExtendArgs, s: Settings, lim: ModelLimit,
                           promptTokens: nat, count: string -> nat, maxCalls: int, imports: Imports)
    : Result<seq<string>>
  {
    match ext
    case Err(e) => Err(e)
    case Ok(ext) =>
      match MaxTokens(lim)
      case Err(e) => Err(e)
      case Ok(m) =>
        if ext.total + OutputBufferTokensSoftThreshold < m then
          Ok(if ext.patches != [] then [Join("\n", ext.patches)] else [])
        else ChunkRun(SortedFiles(langs), a, ChunkConfig(m, promptTokens, maxCalls, s.largePatchPolicy, count), imports)
  }

  /** `get_pr_multi_diffs`, with its helpers imported; a failure to fetch the files is raised again unchanged. */
  method GetPrMultiDiffs(prLanguages: seq<seq<FilePatchInfo>>, fetchError: Option<Error>, s: Settings,
                         lim: ModelLimit, promptTokens: nat, count: string -> nat, maxCalls: int,
                         addLineNumbers: bool)
    returns (r: Result<seq<string>>)
    modifies Flatten(prLanguages)
    ensures fetchError.Some? ==> r == Err(fetchError.value)
    ensures fetchError.None? ==>
              r == MultiDiffsSpec(old(DataOf(Flatten(prLanguages))), LangRecs(prLanguages), s, lim, promptTokens,
                                  count, maxCalls, addLineNumbers, WithImports)
  {
    if fetchError.Some? {
      return Err(fetchError.value);
    }
    var a := ArgsFor(s, false, addLineNumbers, count);
    var patchesExtended := PrGenerateExtendedDiff(prLanguages, promptTokens, a);
    r := ChunksAfterExtended(prLanguages, patchesExtended, a, s, lim, promptTokens, count, maxCalls);
  }

  /** `get_pr_multi_diffs` after the extended diff was attempted with arguments `a`. */
  method ChunksAfterExtended(prLanguages: seq<seq<FilePatchInfo>>, patchesExtended: Result<ExtState>, a: ExtendArgs,
                             s: Settings, lim: ModelLimit, promptTokens: nat, count: string -> nat, maxCalls: int)
    returns (r: Result<seq<string>>)
    ensures r == MultiDiffsAfter(patchesExtended, LangRecs(prLanguages), a, s, lim, promptTokens, count, maxCalls,
                                 WithImports)
  {
    if patchesExtended.Err? {
      return Err(patchesExtended.error);
    }
    var maxTokens := MaxTokens(lim);
    if maxTokens.Err? {
      return Err(maxTokens.error);
    }
    if patchesExtended.value.total + OutputBufferTokensSoftThreshold < maxTokens.value {
      return Ok(if patchesExtended.value.patches != [] then [Join("\n", patchesExtended.value.patches)] else []);
    }
    var sortedFiles := SortLanguages(prLanguages);
    r := ChunkFiles(sortedFiles, a, ChunkConfig(maxTokens.value, promptTokens, maxCalls, s.largePatchPolicy, count),
                    ChunkTexts(sortedFiles, a, WithImports));
  }

  /** The text of one file, step by step as the chunker's loop body makes it. */
  method ChunkFileText(d: FileData, a: ExtendArgs) returns (r: Result<Option<string>>)
    ensures r == ChunkText(d, a, WithImports)
  {
    if d.patch == [] {
      return Ok(None);
    }
    var handled := DeletionHunks.HandlePatchDeletions(d.patch, d.baseFile, d.headFile, d.filename, d.editType);
    if handled.None? {
      return Ok(None);
    }
    var patch := handled.value;
    if a.addLineNumbers {
      var decoupled := DualView.DecoupleAndConvert(patch, Some(DualView.FileRef(d.filename, Some(d.editType))),
                                                   DualView.AsWritten);
      if decoupled.Err? {
        return Err(decoupled.error);
      }
      patch := decoupled.value;
    } else {
      patch := "\n\n## File: '" + Strip(d.filename) + "'\n\n" + Strip(patch) + "\n";
    }
    if d.aiSummary.Some? && a.enableAiMetadata {
      patch := AddAiSummaryTopPatch(patch, d.aiSummary.value);
    }
    return Ok(Some(patch));
  }

  /** The chunker's loop over the sorted files. */
  method ChunkFiles(sortedFiles: seq<Rec>, a: ExtendArgs, c: ChunkConfig, ghost texts: seq<Result<Option<string>>>)
    returns (r: Result<seq<string>>)
    requires |texts| == |sortedFiles|
    requires forall k {:trigger sortedFiles[k]} :: 0 <= k < |texts| ==>
               texts[k] == ChunkText(sortedFiles[k].data, a, WithImports)
    ensures r == ChunkOutcome(texts, c)
  {
    var patches: seq<string> := [];
    var finalDiffList: seq<string> := [];
    var totalTokens: int := c.promptTokens;
    var callNumber := 1;
    ghost var closed: seq<seq<string>> := [];
    var i := 0;
    while i < |sortedFiles|
      invariant i <= |sortedFiles|
      invariant ChunkFold(texts, i, c) == Ok(ChunkState(closed, patches, totalTokens, callNumber))
      invariant finalDiffList == ChunkResult(ChunkState(closed, [], 0, 0))
    {
      if callNumber > c.maxCalls {
        ChunkFoldStopped(texts, i, c);
        break;
      }
      var err;
      err, patches, finalDiffList, totalTokens, callNumber, closed :=
        ChunkOne(sortedFiles, i, a, c, texts, patches, finalDiffList, totalTokens, callNumber, closed);
      if err.Some? {
        ChunkFoldErrSticky(texts, i + 1, c);
        return Err(err.value);
      }
      i := i + 1;
    }
    finalDiffList := AddLastChunk(patches, finalDiffList, closed);
    r := Ok(finalDiffList);
  }

  /** The last chunk, stripped, when it has texts. */
  method AddLastChunk(patches: seq<string>, finalDiffList0: seq<string>, ghost closed: seq<seq<string>>)
    returns (finalDiffList: seq<string>)
    requires finalDiffList0 == ChunkResult(ChunkState(closed, [], 0, 0))
    ensures forall total, callNumber :: finalDiffList == ChunkResult(ChunkState(closed, patches, total, callNumber))
  {
    finalDiffList := finalDiffList0;
    if patches != [] {
      var finalDiff := Join("\n", patches);
      finalDiffList := finalDiffList + [Strip(finalDiff)];
    }
  }

  /**
   * The loop body for the `i`-th file, while calls remain: its text, the
   * large-patch policy, then its place in the chunks; an error is raised.
   */
  method ChunkOne(sortedFiles: seq<Rec>, i: nat, a: ExtendArgs, c: ChunkConfig,
                  ghost texts: seq<Result<Option<string>>>,
                  patches0: seq<string>, finalDiffList0: seq<string>, totalTokens0: int, callNumber0: int,
                  ghost closed0: seq<seq<string>>)
    returns (err: Option<Error>, patches: seq<string>, finalDiffList: seq<string>, totalTokens: int,
             callNumber: int, ghost closed: seq<seq<string>>)
    requires i < |texts| == |sortedFiles|
    requires forall k {:trigger sortedFiles[k]} :: 0 <= k < |texts| ==>
               texts[k] == ChunkText(sortedFiles[k].data, a, WithImports)
    requires ChunkFold(texts, i, c) == Ok(ChunkState(closed0, patches0, totalTokens0, callNumber0))
    requires callNumber0 <= c.maxCalls && finalDiffList0 == ChunkResult(ChunkState(closed0, [], 0, 0))
    ensures err.Some? ==> ChunkFold(texts, i + 1, c) == Err(err.value)
    ensures err.None? ==> ChunkFold(texts, i + 1, c) == Ok(ChunkState(closed, patches, totalTokens, callNumber))
    ensures finalDiffList == ChunkResult(ChunkState(closed, [], 0, 0))
  {
    err, patches, finalDiffList, totalTokens, callNumber, closed :=
      None, patches0, finalDiffList0, totalTokens0, callNumber0, closed0;
    var text := ChunkFileText(sortedFiles[i].data, a);
    if text.Err? {
      return Some(text.error), patches, finalDiffList, totalTokens, callNumber, closed;
    }
    if text.value.Some? {
      var admitted := AdmitPatch(text.value.value, c);
      if admitted.Some? {
        ghost var before := ChunkState(closed, patches, totalTokens, callNumber);
        patches, finalDiffList, totalTokens, callNumber :=
          PlacePatch(admitted.value, patches, finalDiffList, totalTokens, callNumber, c, closed);
        closed := Place(before, admitted.value, c).closed;
      }
    }
  }

  /** The large-patch policy, step by step. */
  method AdmitPatch(p: string, c: ChunkConfig) returns (r: Option<string>)
    ensures r == Admitted(p, c)
  {
    var patch := p;
    var newPatchTokens := c.count(patch);
    if patch != [] && c.promptTokens + newPatchTokens > Budget(c) {
      if c.largePatchPolicy.GetOr("skip") == "skip" {
        return None;
      } else if c.largePatchPolicy == Some("clip") {
        var deltaTokens := Budget(c) - c.promptTokens;
        var patchClipped := Tokens.ClipTokens(patch, deltaTokens, newPatchTokens, true, true);
        newPatchTokens := c.count(patchClipped);
        if patchClipped != [] && c.promptTokens + newPatchTokens > Budget(c) {
          return None;
        }
        patch := patchClipped;
      } else {
        return None;
      }
    }
    return Some(patch);
  }

  /** Placing one admitted text: finish the chunk when it does not fit, then append. */
  method PlacePatch(patch: string, patches0: seq<string>, finalDiffList0: seq<string>, totalTokens0: int,
                    callNumber0: int, c: ChunkConfig, ghost closed: seq<seq<string>>)
    returns (patches: seq<string>, finalDiffList: seq<string>, totalTokens: int, callNumber: int)
    requires finalDiffList0 == ChunkResult(ChunkState(closed, [], 0, 0))
    ensures var next := Place(ChunkState(closed, patches0, totalTokens0, callNumber0), patch, c);
            && ChunkState(next.closed, patches, totalTokens, callNumber) == next
            && finalDiffList == ChunkResult(ChunkState(next.closed, [], 0, 0))
  {
    patches, finalDiffList, totalTokens, callNumber := patches0, finalDiffList0, totalTokens0, callNumber0;
    var newPatchTokens := c.count(patch);
    if patch != [] && totalTokens + newPatchTokens > Budget(c) {
      var finalDiff := Join("\n", patches);
      finalDiffList := finalDiffList + [finalDiff];
      assert finalDiffList == ChunkResult(ChunkState(closed + [patches0], [], 0, 0));
      patches := [];
      totalTokens := c.promptTokens;
      callNumber := callNumber + 1;
      if callNumber > c.maxCalls {
        return;
      }
    }
    if patch != [] {
      patches := patches + [patch];
      totalTokens := totalTokens + newPatchTokens;
    }
  }

  // ----- properties of the chunker -----

  /** Once the calls are used up, the rest of the files change nothing. */
  lemma {:induction false} ChunkFoldStopped(texts: seq<Result<Option<string>>>, n: nat, c: ChunkConfig)
    requires n <= |texts| && ChunkFold(texts, n, c).Ok? && ChunkFold(texts, n, c).value.callNumber > c.maxCalls
    ensures ChunkFold(texts, |texts|, c) == ChunkFold(texts, n, c)
    decreases |texts| - n
  {
    if n < |texts| {
      ChunkFoldStopped(texts, n + 1, c);
    }
  }

  /** An error among the first `n` texts is the chunker's outcome. */
  lemma {:induction false} ChunkFoldErrSticky(texts: seq<Result<Option<string>>>, n: nat, c: ChunkConfig)
    requires n <= |texts| && ChunkFold(texts, n, c).Err?
    ensures ChunkFold(texts, |texts|, c) == ChunkFold(texts, n, c)
    decreases |texts| - n
  {
    if n < |texts| {
      ChunkFoldErrSticky(texts, n + 1, c);
    }
  }

  /** The tokens of the texts of a chunk, by the tokenizer. */
  function SumCounts(xs: seq<string>, count: string -> nat): nat
  {
    if xs == [] then 0 else SumCounts(xs[..|xs| - 1], count) + count(xs[|xs| - 1])
  }

  /** A chunk has texts and, with the prompt, fits the budget. */
  predicate Fits(chunk: seq<string>, c: ChunkConfig)
  {
    chunk != [] && c.promptTokens + SumCounts(chunk, c.count) <= Budget(c)
  }

  /**
   * What the chunker keeps: one finished chunk per call made, each fitting;
   * the current chunk's count is the prompt's plus its texts', and when it
   * has texts it fits and its call is within the limit.
   */
  predicate ChunkInvariant(st: ChunkState, c: ChunkConfig)
  {
    && 1 <= st.callNumber && |st.closed| == st.callNumber - 1
    && (st.callNumber == 1 || st.callNumber <= c.maxCalls + 1)
    && st.total == c.promptTokens + SumCounts(st.patches, c.count)
    && (st.patches != [] ==> Fits(st.patches, c) && st.callNumber <= c.maxCalls)
    && (forall k :: 0 <= k < |st.closed| ==> Fits(st.closed[k], c))
  }

  /** Placing an admitted text keeps the invariant. */
  lemma PlaceKeeps(st: ChunkState, p: string, c: ChunkConfig)
    requires ChunkInvariant(st, c) && st.callNumber <= c.maxCalls
    requires p != [] ==> c.promptTokens + c.count(p) <= Budget(c)
    ensures ChunkInvariant(Place(st, p, c), c)
  {
    var n := c.count(p);
    if p != [] && st.total + n > Budget(c) {
      assert st.patches != [];
      var flushed := ChunkState(st.closed + [st.patches], [], c.promptTokens, st.callNumber + 1);
      assert forall k :: 0 <= k < |flushed.closed| ==> Fits(flushed.closed[k], c);
      if flushed.callNumber <= c.maxCalls {
        assert SumCounts([p], c.count) == n by {
          assert [p][..0] == [];
        }
      }
    } else if p != [] {
      assert (st.patches + [p])[..|st.patches|] == st.patches;
    }
  }

  /** The chunker keeps its invariant over any texts. */
  lemma {:induction false} ChunkFoldInvariant(texts: seq<Result<Option<string>>>, n: nat, c: ChunkConfig)
    requires n <= |texts| && ChunkFold(texts, n, c).Ok?
    ensures ChunkInvariant(ChunkFold(texts, n, c).value, c)
  {
    if n > 0 {
      ChunkFoldInvariant(texts, n - 1, c);
      var st := ChunkFold(texts, n - 1, c).value;
      if st.callNumber <= c.maxCalls && texts[n - 1].Ok? && texts[n - 1].value.Some? {
        var a := Admitted(texts[n - 1].value.value, c);
        if a.Some? {
          PlaceKeeps(st, a.value, c);
        }
      }
    }
  }

  /**
   * The chunks: at most `max_calls` of them (none when it is below one),
   * each the newline-joined texts of a chunk that, with the prompt, fits
   * the model's limit less the soft buffer.
   */
  lemma ChunkRunBudget(sorted: seq<Rec>, a: ExtendArgs, c: ChunkConfig, imports: Imports)
    requires ChunkRun(sorted, a, c, imports).Ok?
    ensures var r := ChunkRun(sorted, a, c, imports).value;
            var st := ChunkFold(ChunkTexts(sorted, a, imports), |sorted|, c).value;
            var chunks := st.closed + (if st.patches != [] then [st.patches] else []);
            && |r| <= (if c.maxCalls > 0 then c.maxCalls else 0)
            && |r| == |chunks|
            && (forall k :: 0 <= k < |chunks| ==> Fits(chunks[k], c))
            && (forall k :: 0 <= k < |st.closed| ==> r[k] == Join("\n", chunks[k]))
            && (st.patches != [] ==> r[|r| - 1] == Strip(Join("\n", st.patches)))
  {
    var texts := ChunkTexts(sorted, a, imports);
    ChunkFoldInvariant(texts, |texts|, c);
  }

  /**
   * `get_pr_multi_diffs`: when the extended diff fits, its texts joined as
   * the one chunk, or no chunk when there are none; otherwise at most
   * `max_calls` chunks, each fitting the model.
   */
  lemma MultiDiffsBudget(ds: seq<FileData>, langs: seq<seq<Rec>>, s: Settings, lim: ModelLimit, promptTokens: nat,
                         count: string -> nat, maxCalls: int, addLineNumbers: bool, imports: Imports)
    requires MultiDiffsSpec(ds, langs, s, lim, promptTokens, count, maxCalls, addLineNumbers, imports).Ok?
    ensures var ext := ExtRun(ds, ArgsFor(s, false, addLineNumbers, count), promptTokens);
            var r := MultiDiffsSpec(ds, langs, s, lim, promptTokens, count, maxCalls, addLineNumbers, imports).value;
            && ext.Ok? && MaxTokens(lim).Ok?
            && (ext.value.total + OutputBufferTokensSoftThreshold < MaxTokens(lim).value ==>
                  r == (if ext.value.patches != [] then [Join("\n", ext.value.patches)] else []))
            && (ext.value.total + OutputBufferTokensSoftThreshold >= MaxTokens(lim).value ==>
                  |r| <= (if maxCalls > 0 then maxCalls else 0))
  {
    var ext := ExtRun(ds, ArgsFor(s, false, addLineNumbers, count), promptTokens);
    if ext.Ok? && MaxTokens(lim).Ok? && ext.value.total + OutputBufferTokensSoftThreshold >= MaxTokens(lim).value {
      ChunkRunBudget(SortedFiles(langs), ArgsFor(s, false, addLineNumbers, count),
                     ChunkConfig(MaxTokens(lim).value, promptTokens, maxCalls, s.largePatchPolicy, count), imports);
    }
  }

  /** As written: while no file has a patch the chunker's state stays the initial one. */
  lemma {:induction false} AsWrittenQuietBefore(recs: seq<Rec>, a: ExtendArgs, c: ChunkConfig, n: nat)
    requires n <= |recs| && forall k :: 0 <= k < n ==> recs[k].data.patch == []
    ensures ChunkFold(ChunkTexts(recs, a, MissingImports), n, c) == Ok(ChunkState([], [], c.promptTokens, 1))
  {
    if n > 0 {
      AsWrittenQuietBefore(recs, a, c, n - 1);
    }
  }

  /**
   * As written, `get_pr_multi_diffs` fails with a `NameError` as soon as it
   * reaches a file with a patch: with at least one call allowed and any
   * file with a patch, chunking never succeeds.
   */
  lemma AsWrittenNameError(recs: seq<Rec>, a: ExtendArgs, c: ChunkConfig, i: nat)
    requires c.maxCalls >= 1 && i < |recs| && recs[i].data.patch != []
    requires forall k :: 0 <= k < i ==> recs[k].data.patch == []
    ensures ChunkRun(recs, a, c, MissingImports) == Err(NameError("handle_patch_deletions"))
  {
    var texts := ChunkTexts(recs, a, MissingImports);
    AsWrittenQuietBefore(recs, a, c, i);
    assert ChunkFold(texts, i + 1, c) == Err(NameError("handle_patch_deletions"));
    ChunkFoldErrSticky(texts, i + 1, c);
  }
}
