/**
 * `pr_generate_compressed_diff`: every language's files sorted by their stored
 * token count, a dictionary of prepared patches (deletion-only hunks omitted,
 * optionally in the line-numbered rendering), the names of removed files, and
 * one greedy pass of `generate_full_patch` followed, for a large PR, by further
 * passes over the names the previous pass deferred.
 *
 * The compressed diff only reads the file records; their fields are taken as
 * values (`Rec`). The tokenizer is the parameter `count`, the prompt's tokens
 * the parameter `promptTokens`, and `max_ai_calls` the parameter `maxAiCalls`.
 */
module CompressedDiff {
  import opened Wrappers
  import opened Text
  import opened PrTypes
  import DualView
  import DeletionHunks
  import TextUtils
  import Tokens
  import opened DiffProcessing

  /** A file as the compressed diff reads it: its fields and its stored token count. */
  datatype Rec = Rec(data: FileData, tokens: int)

  function RecOf(f: FilePatchInfo): Rec
    reads f
  {
    Rec(Data(f), f.tokens)
  }

  function RecsOf(fs: seq<FilePatchInfo>): (r: seq<Rec>)
    reads fs
    ensures |r| == |fs|
  {
    seq(|fs|, k requires 0 <= k < |fs| reads fs => RecOf(fs[k]))
  }

  function Names(recs: seq<Rec>): (r: seq<string>)
    ensures |r| == |recs| && forall k :: 0 <= k < |recs| ==> r[k] == recs[k].data.filename
  {
    seq(|recs|, k requires 0 <= k < |recs| => recs[k].data.filename)
  }

  // ----- sorting by tokens, descending -----

  /** `x` placed before the first element whose count is not above its own. */
  function InsertDesc(x: Rec, t: seq<Rec>): seq<Rec>
  {
    if t == [] || t[0].tokens <= x.tokens then [x] + t else [t[0]] + InsertDesc(x, t[1..])
  }

  /** `sorted(files, key=tokens, reverse=True)`. */
  function SortDesc(s: seq<Rec>): seq<Rec>
  {
    if s == [] then [] else InsertDesc(s[0], SortDesc(s[1..]))
  }

  predicate Descending(s: seq<Rec>)
  {
    forall i, j :: 0 <= i < j < |s| ==> s[i].tokens >= s[j].tokens
  }

  /** The elements of `s` whose count is `v`, in order. */
  function WithTokens(s: seq<Rec>, v: int): seq<Rec>
  {
    if s == [] then [] else (if s[0].tokens == v then [s[0]] else []) + WithTokens(s[1..], v)
  }

  lemma {:induction false} InsertDescMultiset(x: Rec, t: seq<Rec>)
    ensures multiset(InsertDesc(x, t)) == multiset(t) + multiset{x}
  {
    if t != [] && t[0].tokens > x.tokens {
      InsertDescMultiset(x, t[1..]);
      assert t == [t[0]] + t[1..];
    }
  }

  lemma {:induction false} InsertDescDescending(x: Rec, t: seq<Rec>)
    requires Descending(t)
    ensures Descending(InsertDesc(x, t))
  {
    if t != [] && t[0].tokens > x.tokens {
      var r := InsertDesc(x, t[1..]);
      InsertDescDescending(x, t[1..]);
      InsertDescMultiset(x, t[1..]);
      forall j | 0 <= j < |r|
        ensures t[0].tokens >= r[j].tokens
      {
        assert r[j] in multiset(r);
        if r[j] != x {
          assert r[j] in multiset(t[1..]);
          var i :| 0 <= i < |t[1..]| && t[1..][i] == r[j];
          assert t[i + 1] == r[j];
        }
      }
      assert InsertDesc(x, t) == [t[0]] + r;
    }
  }

  lemma {:induction false} InsertDescStable(x: Rec, t: seq<Rec>, v: int)
    ensures WithTokens(InsertDesc(x, t), v) == (if x.tokens == v then [x] else []) + WithTokens(t, v)
  {
    if t == [] || t[0].tokens <= x.tokens {
      assert InsertDesc(x, t) == [x] + t;
      assert ([x] + t)[1..] == t;
    } else {
      var r := InsertDesc(x, t[1..]);
      assert InsertDesc(x, t) == [t[0]] + r;
      assert ([t[0]] + r)[1..] == r;
      InsertDescStable(x, t[1..], v);
      var head := if t[0].tokens == v then [t[0]] else [];
      var rest := WithTokens(t[1..], v);
      assert WithTokens(InsertDesc(x, t), v) == head + WithTokens(r, v);
      assert WithTokens(t, v) == head + rest;
      if x.tokens == v {
        assert head == [];
        assert WithTokens(r, v) == [x] + rest;
      } else {
        assert WithTokens(r, v) == rest;
      }
    }
  }

  /** The sorted list is descending and a permutation of the input. */
  lemma {:induction false} SortDescSpec(s: seq<Rec>)
    ensures Descending(SortDesc(s))
    ensures multiset(SortDesc(s)) == multiset(s)
  {
    if s != [] {
      SortDescSpec(s[1..]);
      InsertDescMultiset(s[0], SortDesc(s[1..]));
      InsertDescDescending(s[0], SortDesc(s[1..]));
      assert s == [s[0]] + s[1..];
    }
  }

  /** The sort is stable: files with equal counts keep their input order. */
  lemma {:induction false} SortDescStable(s: seq<Rec>, v: int)
    ensures WithTokens(SortDesc(s), v) == WithTokens(s, v)
  {
    if s != [] {
      SortDescStable(s[1..], v);
      InsertDescStable(s[0], SortDesc(s[1..]), v);
    }
  }

  /** Every language's files, each language sorted on its own, languages in order. */
  function SortedFiles(langs: seq<seq<Rec>>): seq<Rec>
  {
    if langs == [] then [] else SortedFiles(langs[..|langs| - 1]) + SortDesc(langs[|langs| - 1])
  }

  function AllFiles(langs: seq<seq<Rec>>): seq<Rec>
  {
    if langs == [] then [] else AllFiles(langs[..|langs| - 1]) + langs[|langs| - 1]
  }

  /** Sorting the languages loses and adds no file. */
  lemma {:induction false} SortedFilesPermutes(langs: seq<seq<Rec>>)
    ensures multiset(SortedFiles(langs)) == multiset(AllFiles(langs))
  {
    if langs != [] {
      SortedFilesPermutes(langs[..|langs| - 1]);
      SortDescSpec(langs[|langs| - 1]);
    }
  }

  function LangRecs(langs: seq<seq<FilePatchInfo>>): (r: seq<seq<Rec>>)
    reads set i, j | 0 <= i < |langs| && 0 <= j < |langs[i]| :: langs[i][j]
    ensures |r| == |langs|
  {
    if langs == [] then []
    else
      LangRecs(langs[..|langs| - 1]) + [RecsOf(langs[|langs| - 1])]
  }

  // ----- the file dictionary -----

  /** What preparing one file gives: nothing (no patch), removal, or a dictionary entry. */
  datatype Outcome = Skipped | Removed | Entry(entry: FileEntry)

  /**
   * One file of the dictionary loop: an empty patch is skipped; a file that
   * `handle_patch_deletions` removes is listed as deleted; any other gets its
   * pruned (and optionally line-numbered) patch and that patch's count. The
   * line-numbered rendering can raise.
   */
  function Prepare(d: FileData, convert: bool, count: string -> nat): (r: Result<Outcome>)
    ensures r.Ok? && r.value.Removed? <==>
            d.patch != [] && d.headFile == [] && (d.editType == Deleted || d.editType == Unknown)
    ensures r.Ok? && r.value.Skipped? <==> d.patch == []
    ensures r.Err? ==> convert
    ensures r.Ok? && r.value.Entry? ==> r.value.entry.tokens == count(r.value.entry.patch)
                                        && r.value.entry.editType == d.editType
  {
    if d.patch == [] then Ok(Skipped)
    else match DeletionHunks.HandlePatchDeletions(d.patch, d.baseFile, d.headFile, d.filename, d.editType)
      case None => Ok(Removed)
      case Some(p) =>
        if convert then
          match DualView.Decouple(p, Some(DualView.FileRef(d.filename, Some(d.editType))), DualView.AsWritten)
          case Err(e) => Err(e)
          case Ok(q) => Ok(Entry(FileEntry(q, count(q), d.editType)))
        else Ok(Entry(FileEntry(p, count(p), d.editType)))
  }

  function PreparedOf(recs: seq<Rec>, convert: bool, count: string -> nat): (r: seq<Result<Outcome>>)
    ensures |r| == |recs| && forall k :: 0 <= k < |recs| ==> r[k] == Prepare(recs[k].data, convert, count)
  {
    seq(|recs|, k requires 0 <= k < |recs| => Prepare(recs[k].data, convert, count))
  }

  /**
   * The dictionary, its keys in insertion order (a dictionary iterates in the
   * order its keys were first set), and the deleted-files list.
   */
  datatype DictState = DictState(fileDict: map<string, FileEntry>, order: seq<string>, deleted: seq<string>)

  function DictStep(st: DictState, name: string, o: Outcome): DictState
  {
    match o
    case Skipped => st
    case Removed => if name in st.deleted then st else st.(deleted := st.deleted + [name])
    case Entry(e) =>
      st.(fileDict := st.fileDict[name := e], order := if name in st.fileDict then st.order else st.order + [name])
  }

  /** The dictionary loop over the first `n` outcomes; the first error stops it. */
  function DictFold(names: seq<string>, outs: seq<Result<Outcome>>, n: nat): Result<DictState>
    requires n <= |names| == |outs|
  {
    if n == 0 then Ok(DictState(map[], [], []))
    else match DictFold(names, outs, n - 1)
      case Err(e) => Err(e)
      case Ok(st) =>
        match outs[n - 1]
        case Err(e) => Err(e)
        case Ok(o) => Ok(DictStep(st, names[n - 1], o))
  }

  function DictRun(recs: seq<Rec>, convert: bool, count: string -> nat): Result<DictState>
  {
    DictFold(Names(recs), PreparedOf(recs, convert, count), |recs|)
  }

  /** The names among the first `n` whose outcome is a removal, in order. */
  function RemovedNames(names: seq<string>, outs: seq<Result<Outcome>>, n: nat): seq<string>
    requires n <= |names| == |outs|
  {
    if n == 0 then []
    else RemovedNames(names, outs, n - 1) + (if outs[n - 1] == Ok(Removed) then [names[n - 1]] else [])
  }

  /** The dictionary loop fails exactly when one of its outcomes is an error. */
  lemma {:induction false} DictFoldErr(names: seq<string>, outs: seq<Result<Outcome>>, n: nat)
    requires n <= |names| == |outs|
    ensures DictFold(names, outs, n).Err? <==> exists i :: 0 <= i < n && outs[i].Err?
  {
    if n > 0 {
      DictFoldErr(names, outs, n - 1);
    }
  }

  /** An error among the first `n` outcomes is the result of the whole loop. */
  lemma {:induction false} DictFoldErrSticky(names: seq<string>, outs: seq<Result<Outcome>>, n: nat)
    requires n <= |names| == |outs| && DictFold(names, outs, n).Err?
    ensures DictFold(names, outs, |outs|) == DictFold(names, outs, n)
    decreases |outs| - n
  {
    if n < |outs| {
      DictFoldErrSticky(names, outs, n + 1);
    }
  }

  /** The deleted list names each removed file once, in the order of first removal. */
  lemma {:induction false} DeletedAreFirstRemovals(names: seq<string>, outs: seq<Result<Outcome>>, n: nat)
    requires n <= |names| == |outs| && DictFold(names, outs, n).Ok?
    ensures DictFold(names, outs, n).value.deleted == TextUtils.FirstOccurrences(RemovedNames(names, outs, n))
  {
    if n > 0 {
      DeletedAreFirstRemovals(names, outs, n - 1);
      var prev := RemovedNames(names, outs, n - 1);
      var rs := RemovedNames(names, outs, n);
      if outs[n - 1] == Ok(Removed) {
        assert rs == prev + [names[n - 1]];
        assert rs[..|rs| - 1] == prev;
        TextUtils.FirstOccurrencesSpec(prev);
        assert names[n - 1] in DictFold(names, outs, n - 1).value.deleted <==> names[n - 1] in prev;
      } else {
        assert rs == prev;
      }
    }
  }

  /** The names among the first `n` whose outcome is an entry, in order. */
  function EnteredNames(names: seq<string>, outs: seq<Result<Outcome>>, n: nat): seq<string>
    requires n <= |names| == |outs|
  {
    if n == 0 then []
    else EnteredNames(names, outs, n - 1) + (if outs[n - 1].Ok? && outs[n - 1].value.Entry? then [names[n - 1]] else [])
  }

  /**
   * The dictionary's iteration order lists each entered name once, in the
   * order of its first entry, and its names are exactly the keys.
   */
  lemma {:induction false} OrderIsFirstEntries(names: seq<string>, outs: seq<Result<Outcome>>, n: nat)
    requires n <= |names| == |outs| && DictFold(names, outs, n).Ok?
    ensures DictFold(names, outs, n).value.order == TextUtils.FirstOccurrences(EnteredNames(names, outs, n))
    ensures forall k :: k in DictFold(names, outs, n).value.order <==> k in DictFold(names, outs, n).value.fileDict
  {
    if n > 0 {
      OrderIsFirstEntries(names, outs, n - 1);
      var prev := EnteredNames(names, outs, n - 1);
      var es := EnteredNames(names, outs, n);
      var st := DictFold(names, outs, n - 1).value;
      if outs[n - 1].Ok? && outs[n - 1].value.Entry? {
        assert es == prev + [names[n - 1]];
        assert es[..|es| - 1] == prev;
        TextUtils.FirstOccurrencesSpec(prev);
        assert names[n - 1] in st.order <==> names[n - 1] in prev;
      } else {
        assert es == prev;
      }
    }
  }

  /** The outcome at `i` is an entry and no later one among the first `n` enters the same name. */
  predicate LastEntry(names: seq<string>, outs: seq<Result<Outcome>>, n: nat, i: nat)
    requires n <= |names| == |outs|
  {
    i < n && outs[i].Ok? && outs[i].value.Entry?
    && forall j :: i < j < n && names[j] == names[i] ==> !(outs[j].Ok? && outs[j].value.Entry?)
  }

  /** One more outcome: an entry sets its name's value, anything else leaves the dictionary alone. */
  lemma DictFoldStep(names: seq<string>, outs: seq<Result<Outcome>>, n: nat)
    requires 0 < n <= |names| == |outs| && DictFold(names, outs, n).Ok?
    ensures DictFold(names, outs, n - 1).Ok? && outs[n - 1].Ok?
    ensures var d0 := DictFold(names, outs, n - 1).value.fileDict;
            DictFold(names, outs, n).value.fileDict
              == if outs[n - 1].value.Entry? then d0[names[n - 1] := outs[n - 1].value.entry] else d0
  {
  }

  /** A name is a key exactly when one of the outcomes entered it. */
  lemma {:induction false} FileDictKeys(names: seq<string>, outs: seq<Result<Outcome>>, n: nat, k: string)
    requires n <= |names| == |outs| && DictFold(names, outs, n).Ok?
    ensures (k in DictFold(names, outs, n).value.fileDict)
            <==> (exists i :: 0 <= i < n && names[i] == k && outs[i].Ok? && outs[i].value.Entry?)
  {
    if n > 0 {
      DictFoldStep(names, outs, n);
      FileDictKeys(names, outs, n - 1, k);
    }
  }

  /** A key's value is the last entry made for it: a later file of the same name overwrites. */
  lemma {:induction false} FileDictLast(names: seq<string>, outs: seq<Result<Outcome>>, n: nat, k: string)
    requires n <= |names| == |outs| && DictFold(names, outs, n).Ok?
    requires k in DictFold(names, outs, n).value.fileDict
    ensures exists i :: 0 <= i < n && names[i] == k && LastEntry(names, outs, n, i)
                        && outs[i].value.entry == DictFold(names, outs, n).value.fileDict[k]
  {
    DictFoldStep(names, outs, n);
    var d0 := DictFold(names, outs, n - 1).value.fileDict;
    if names[n - 1] == k && outs[n - 1].value.Entry? {
      assert LastEntry(names, outs, n, n - 1);
    } else {
      FileDictLast(names, outs, n - 1, k);
      var i :| 0 <= i < n - 1 && names[i] == k && LastEntry(names, outs, n - 1, i) && outs[i].value.entry == d0[k];
      assert LastEntry(names, outs, n, i);
    }
  }

  /** Every dictionary entry's count is the tokenizer's count of its patch. */
  lemma FileDictTokens(recs: seq<Rec>, convert: bool, count: string -> nat, k: string)
    requires DictRun(recs, convert, count).Ok? && k in DictRun(recs, convert, count).value.fileDict
    ensures var e := DictRun(recs, convert, count).value.fileDict[k];
            e.tokens == count(e.patch)
  {
    var names, outs := Names(recs), PreparedOf(recs, convert, count);
    FileDictLast(names, outs, |recs|, k);
  }

  /** The dictionary loop: entries overwrite, removed names are added once. */
  method BuildFileDict(sortedFiles: seq<Rec>, convertHunksToLineNumbers: bool, count: string -> nat)
    returns (r: Result<DictState>)
    ensures r == DictRun(sortedFiles, convertHunksToLineNumbers, count)
  {
    ghost var names, outs := Names(sortedFiles), PreparedOf(sortedFiles, convertHunksToLineNumbers, count);
    var fileDict: map<string, FileEntry> := map[];
    var order: seq<string> := [];
    var deleted: seq<string> := [];
    for i := 0 to |sortedFiles|
      invariant DictFold(names, outs, i) == Ok(DictState(fileDict, order, deleted))
    {
      var file := sortedFiles[i].data;
      if file.patch == [] {
        continue;
      }
      var patch := DeletionHunks.HandlePatchDeletions(file.patch, file.baseFile, file.headFile, file.filename,
                                                      file.editType);
      if patch.None? {
        if file.filename !in deleted {
          deleted := deleted + [file.filename];
        }
        continue;
      }
      var p := patch.value;
      if convertHunksToLineNumbers {
        var q := DualView.DecoupleAndConvert(p, Some(DualView.FileRef(file.filename, Some(file.editType))),
                                             DualView.AsWritten);
        if q.Err? {
          DictFoldErrSticky(names, outs, i + 1);
          return Err(q.error);
        }
        p := q.value;
      }
      if file.filename !in fileDict {
        order := order + [file.filename];
      }
      fileDict := fileDict[file.filename := FileEntry(p, count(p), file.editType)];
    }
    r := Ok(DictState(fileDict, order, deleted));
  }

  // ----- the passes -----

  /** The passes after the first: `max_ai_calls - 2` of them for a large PR, none otherwise. */
  function Iterations(largePrHandling: bool, maxAiCalls: int): nat
  {
    if largePrHandling && maxAiCalls - 2 > 0 then maxAiCalls - 2 else 0
  }

  /**
   * At most `k` further passes, each over the names the previous one deferred,
   * stopping once none remain; a pass that includes nothing is not recorded.
   * Also the names still deferred at the end.
   */
  function MorePasses(c: PassConfig, remaining: seq<string>, k: nat): (seq<PassState>, seq<string>)
    decreases k
  {
    if k == 0 || remaining == [] then ([], remaining)
    else
      var st := PassRun(c, remaining, |remaining|);
      var next := MorePasses(c, st.remaining, k - 1);
      ((if st.patches != [] then [st] else []) + next.0, next.1)
  }

  /**
   * The six lists `pr_generate_compressed_diff` returns; `fileOrder` is the
   * dictionary's iteration order.
   */
  datatype Compressed = Compressed(patchesList: seq<seq<string>>, totalTokensList: seq<int>,
                                   deletedFilesList: seq<string>, remainingFilesList: seq<string>,
                                   fileDict: map<string, FileEntry>, fileOrder: seq<string>,
                                   filesInPatchesList: seq<seq<string>>)

  function PatchesOf(ps: seq<PassState>): (r: seq<seq<string>>)
    ensures |r| == |ps| && forall k :: 0 <= k < |ps| ==> r[k] == ps[k].patches
  {
    seq(|ps|, k requires 0 <= k < |ps| => ps[k].patches)
  }

  function TotalsOf(ps: seq<PassState>): (r: seq<int>)
    ensures |r| == |ps| && forall k :: 0 <= k < |ps| ==> r[k] == ps[k].total
  {
    seq(|ps|, k requires 0 <= k < |ps| => ps[k].total)
  }

  function IncludedOf(ps: seq<PassState>): (r: seq<seq<string>>)
    ensures |r| == |ps| && forall k :: 0 <= k < |ps| ==> r[k] == ps[k].included
  {
    seq(|ps|, k requires 0 <= k < |ps| => ps[k].included)
  }

  lemma PassListsSnoc(ps: seq<PassState>, st: PassState)
    ensures PatchesOf(ps + [st]) == PatchesOf(ps) + [st.patches]
    ensures TotalsOf(ps + [st]) == TotalsOf(ps) + [st.total]
    ensures IncludedOf(ps + [st]) == IncludedOf(ps) + [st.included]
  {
  }

  /**
   * The lists of the passes made with configuration `c`: the first pass over
   * all names, then the further ones over what stays deferred.
   */
  function Packed(c: PassConfig, order: seq<string>, names: seq<string>, deleted: seq<string>, iterations: nat)
    : Compressed
  {
    var first := PassRun(c, names, |names|);
    var more := MorePasses(c, first.remaining, iterations);
    var ps := [first] + more.0;
    Compressed(PatchesOf(ps), TotalsOf(ps), deleted, more.1, c.fileDict, order, IncludedOf(ps))
  }

  /** The compressed diff once the files are sorted and the dictionary loop has run. */
  function CompressedFrom(sorted: seq<Rec>, dict: Result<DictState>, convert: bool, largePrHandling: bool,
                          maxAiCalls: int, maxTokens: Result<int>, promptTokens: nat, count: string -> nat)
    : Result<Compressed>
  {
    match dict
    case Err(e) => Err(e)
    case Ok(ds) =>
      match maxTokens
      case Err(e) => Err(e)
      case Ok(m) =>
        Ok(Packed(PassConfig(convert, ds.fileDict, m, promptTokens, count), ds.order, Names(sorted), ds.deleted,
                  Iterations(largePrHandling, maxAiCalls)))
  }

  /**
   * The compressed diff of languages `langs`: the dictionary (its error
   * first), then the model's limit (its error next), then the passes.
   */
  function CompressedSpec(langs: seq<seq<Rec>>, convert: bool, largePrHandling: bool, maxAiCalls: int,
                          maxTokens: Result<int>, promptTokens: nat, count: string -> nat): Result<Compressed>
  {
    var sorted := SortedFiles(langs);
    CompressedFrom(sorted, DictRun(sorted, convert, count), convert, largePrHandling, maxAiCalls, maxTokens,
                   promptTokens, count)
  }

  method PrGenerateCompressedDiff(topLangs: seq<seq<FilePatchInfo>>, convertHunksToLineNumbers: bool,
                                  largePrHandling: bool, maxAiCalls: int,
                                  model: string, table: map<string, int>, customModelMaxTokens: int, maxModelTokens: int,
                                  promptTokens: nat, count: string -> nat)
    returns (r: Result<Compressed>)
    ensures r == CompressedSpec(LangRecs(topLangs), convertHunksToLineNumbers, largePrHandling, maxAiCalls,
                                Tokens.GetMaxTokens(model, table, customModelMaxTokens, maxModelTokens),
                                promptTokens, count)
  {
    var sortedFiles := SortLanguages(topLangs);
    r := CompressSorted(sortedFiles, convertHunksToLineNumbers, largePrHandling, maxAiCalls,
                        Tokens.GetMaxTokens(model, table, customModelMaxTokens, maxModelTokens), promptTokens, count);
  }

  /** The compressed diff once the files are sorted: the dictionary loop, the model's limit, the passes. */
  method CompressSorted(sortedFiles: seq<Rec>, convertHunksToLineNumbers: bool, largePrHandling: bool,
                        maxAiCalls: int, maxTokensModel: Result<int>, promptTokens: nat, count: string -> nat)
    returns (r: Result<Compressed>)
    ensures r == CompressedFrom(sortedFiles, DictRun(sortedFiles, convertHunksToLineNumbers, count),
                                convertHunksToLineNumbers, largePrHandling, maxAiCalls, maxTokensModel, promptTokens,
                                count)
  {
    var dict := BuildFileDict(sortedFiles, convertHunksToLineNumbers, count);
    if dict.Err? {
      return Err(dict.error);
    }
    if maxTokensModel.Err? {
      return Err(maxTokensModel.error);
    }
    var packed := GeneratePasses(PassConfig(convertHunksToLineNumbers, dict.value.fileDict, maxTokensModel.value,
                                            promptTokens, count),
                                 dict.value.order, Names(sortedFiles), dict.value.deleted, largePrHandling,
                                 maxAiCalls);
    r := Ok(packed);
  }

  /** The first pass over every name, then the large-PR passes. */
  method GeneratePasses(c: PassConfig, order: seq<string>, names: seq<string>, deleted: seq<string>,
                        largePrHandling: bool, maxAiCalls: int)
    returns (r: Compressed)
    ensures r == Packed(c, order, names, deleted, Iterations(largePrHandling, maxAiCalls))
  {
    // first iteration
    var totalTokens, patches, remainingFilesList, filesInPatchList :=
      GenerateFullPatch(c.convertHunks, c.fileDict, c.maxTokensModel, names, c.promptTokens, c.count);
    var first := PassState(totalTokens, patches, remainingFilesList, filesInPatchList);
    var patchesList, totalTokensList, filesInPatchesList := [patches], [totalTokens], [filesInPatchList];

    // additional iterations
    ghost var more := MorePasses(c, first.remaining, Iterations(largePrHandling, maxAiCalls));
    if !largePrHandling {
      assert more == ([], first.remaining);
      assert [first] + more.0 == [first];
      assert patchesList == PatchesOf([first]) && totalTokensList == TotalsOf([first])
          && filesInPatchesList == IncludedOf([first]);
    } else {
      patchesList, totalTokensList, remainingFilesList, filesInPatchesList :=
        FurtherPasses(c, maxAiCalls - 1, first, patchesList, totalTokensList, filesInPatchesList);
    }
    r := Compressed(patchesList, totalTokensList, deleted, remainingFilesList, c.fileDict, order, filesInPatchesList);
  }

  /** Each language's files sorted by stored tokens, descending, appended language by language. */
  method SortLanguages(topLangs: seq<seq<FilePatchInfo>>) returns (sortedFiles: seq<Rec>)
    ensures sortedFiles == SortedFiles(LangRecs(topLangs))
  {
    sortedFiles := [];
    for g := 0 to |topLangs|
      invariant sortedFiles == SortedFiles(LangRecs(topLangs[..g]))
    {
      assert topLangs[..g + 1][..g] == topLangs[..g];
      sortedFiles := sortedFiles + SortDesc(RecsOf(topLangs[g]));
    }
    assert topLangs[..|topLangs|] == topLangs;
  }

  /**
   * The large-PR loop: `numberOfAllowedIterations - 1` rounds, each a pass
   * over the deferred names while there are any, recorded when it includes
   * something.
   */
  method FurtherPasses(c: PassConfig, numberOfAllowedIterations: int, first: PassState,
                       patches0: seq<seq<string>>, totals0: seq<int>, files0: seq<seq<string>>)
    returns (patchesList: seq<seq<string>>, totalTokensList: seq<int>, remainingFilesList: seq<string>,
             filesInPatchesList: seq<seq<string>>)
    requires patches0 == PatchesOf([first]) && totals0 == TotalsOf([first]) && files0 == IncludedOf([first])
    ensures var iterations := if numberOfAllowedIterations - 1 > 0 then numberOfAllowedIterations - 1 else 0;
            var more := MorePasses(c, first.remaining, iterations);
            && patchesList == PatchesOf([first] + more.0) && totalTokensList == TotalsOf([first] + more.0)
            && filesInPatchesList == IncludedOf([first] + more.0) && remainingFilesList == more.1
  {
    ghost var iterations: nat := if numberOfAllowedIterations - 1 > 0 then numberOfAllowedIterations - 1 else 0;
    patchesList, totalTokensList, remainingFilesList, filesInPatchesList := patches0, totals0, first.remaining, files0;
    ghost var passes: seq<PassState> := [];
    var i := 0;
    while i < numberOfAllowedIterations - 1
      invariant 0 <= i <= iterations
      invariant passes + MorePasses(c, remainingFilesList, iterations - i).0 == MorePasses(c, first.remaining, iterations).0
      invariant MorePasses(c, remainingFilesList, iterations - i).1 == MorePasses(c, first.remaining, iterations).1
      invariant patchesList == PatchesOf([first] + passes)
      invariant totalTokensList == TotalsOf([first] + passes)
      invariant filesInPatchesList == IncludedOf([first] + passes)
    {
      if remainingFilesList != [] {
        passes, remainingFilesList, patchesList, totalTokensList, filesInPatchesList :=
          NextPass(c, first, passes, iterations - i, remainingFilesList, patchesList, totalTokensList,
                   filesInPatchesList);
      } else {
        break;
      }
      i := i + 1;
    }
  }

  /** One further pass over the deferred names, recorded when it included something. */
  method NextPass(c: PassConfig, ghost first: PassState, ghost passes0: seq<PassState>, ghost k: nat,
                  remaining0: seq<string>, patches0: seq<seq<string>>, totals0: seq<int>, files0: seq<seq<string>>)
    returns (ghost passes: seq<PassState>, remaining: seq<string>, patchesList: seq<seq<string>>,
             totalTokensList: seq<int>, filesInPatchesList: seq<seq<string>>)
    requires k > 0 && remaining0 != []
    requires patches0 == PatchesOf([first] + passes0) && totals0 == TotalsOf([first] + passes0)
    requires files0 == IncludedOf([first] + passes0)
    ensures passes + MorePasses(c, remaining, k - 1).0 == passes0 + MorePasses(c, remaining0, k).0
    ensures MorePasses(c, remaining, k - 1).1 == MorePasses(c, remaining0, k).1
    ensures patchesList == PatchesOf([first] + passes) && totalTokensList == TotalsOf([first] + passes)
    ensures filesInPatchesList == IncludedOf([first] + passes)
  {
    passes, patchesList, totalTokensList, filesInPatchesList := passes0, patches0, totals0, files0;
    var totalTokens, patches, filesInPatchList;
    totalTokens, patches, remaining, filesInPatchList :=
      GenerateFullPatch(c.convertHunks, c.fileDict, c.maxTokensModel, remaining0, c.promptTokens, c.count);
    ghost var st := PassState(totalTokens, patches, remaining, filesInPatchList);
    ghost var next := MorePasses(c, remaining, k - 1);
    assert MorePasses(c, remaining0, k) == ((if patches != [] then [st] else []) + next.0, next.1);
    if patches != [] {
      patchesList := patchesList + [patches];
      totalTokensList := totalTokensList + [totalTokens];
      filesInPatchesList := filesInPatchesList + [filesInPatchList];
      PassListsSnoc([first] + passes, st);
      assert [first] + (passes + [st]) == ([first] + passes) + [st];
      assert passes + ([st] + next.0) == (passes + [st]) + next.0;
      passes := passes + [st];
    } else {
      assert [] + next.0 == next.0;
    }
  }

  // ----- properties of the passes -----

  /** A pass includes and defers only names it was given. */
  lemma {:induction false} PickedFrom(c: PassConfig, names: seq<string>, n: nat, d: Decision, x: string)
    requires n <= |names| && x in Picked(c, names, n, d)
    ensures x in names
  {
    if n > 0 && x !in Picked(c, names, n - 1, d) {
      assert x == names[n - 1];
    } else if n > 0 {
      PickedFrom(c, names, n - 1, d, x);
    }
  }

  /**
   * There are at most `k` further passes, each included something, and every
   * name they include or leave deferred was deferred by the pass before them.
   */
  lemma {:induction false} MorePassesSpec(c: PassConfig, remaining: seq<string>, k: nat)
    decreases k
    ensures |MorePasses(c, remaining, k).0| <= k
    ensures forall i :: 0 <= i < |MorePasses(c, remaining, k).0| ==> MorePasses(c, remaining, k).0[i].patches != []
    ensures forall i, x :: 0 <= i < |MorePasses(c, remaining, k).0| && x in MorePasses(c, remaining, k).0[i].included
              ==> x in remaining
    ensures forall x :: x in MorePasses(c, remaining, k).1 ==> x in remaining
  {
    if k > 0 && remaining != [] {
      var st := PassRun(c, remaining, |remaining|);
      MorePassesSpec(c, st.remaining, k - 1);
      PassInvariant(c, remaining, |remaining|);
      forall x | x in st.remaining
        ensures x in remaining
      {
        PickedFrom(c, remaining, |remaining|, Deferred, x);
      }
      forall x | x in st.included
        ensures x in remaining
      {
        PickedFrom(c, remaining, |remaining|, Included, x);
      }
    }
  }

  /** Without large-PR handling there is exactly one pass, and its deferred names are returned. */
  lemma SinglePassUnlessLarge(c: PassConfig, remaining: seq<string>, maxAiCalls: int)
    ensures MorePasses(c, remaining, Iterations(false, maxAiCalls)) == ([], remaining)
  {
  }

  /**
   * The compressed diff's lists run in parallel: one to `max_ai_calls - 1`
   * passes, the later ones non-empty; the removed files are listed once
   * each.
   */
  lemma CompressedShape(langs: seq<seq<Rec>>, convert: bool, largePrHandling: bool, maxAiCalls: int,
                        maxTokens: Result<int>, promptTokens: nat, count: string -> nat)
    requires CompressedSpec(langs, convert, largePrHandling, maxAiCalls, maxTokens, promptTokens, count).Ok?
    ensures var r := CompressedSpec(langs, convert, largePrHandling, maxAiCalls, maxTokens, promptTokens, count).value;
            && 1 <= |r.patchesList| <= 1 + Iterations(largePrHandling, maxAiCalls)
            && |r.totalTokensList| == |r.patchesList| == |r.filesInPatchesList|
            && (forall i :: 1 <= i < |r.patchesList| ==> r.patchesList[i] != [])
            && TextUtils.NoDuplicates(r.deletedFilesList)
            && TextUtils.NoDuplicates(r.fileOrder) && (forall k :: k in r.fileOrder <==> k in r.fileDict)
  {
    var sorted := SortedFiles(langs);
    var names, outs := Names(sorted), PreparedOf(sorted, convert, count);
    DeletedAreFirstRemovals(names, outs, |sorted|);
    TextUtils.FirstOccurrencesSpec(RemovedNames(names, outs, |sorted|));
    OrderIsFirstEntries(names, outs, |sorted|);
    TextUtils.FirstOccurrencesSpec(EnteredNames(names, outs, |sorted|));
    var ds := DictRun(sorted, convert, count).value;
    var c := PassConfig(convert, ds.fileDict, maxTokens.value, promptTokens, count);
    var first := PassRun(c, names, |sorted|);
    MorePassesSpec(c, first.remaining, Iterations(largePrHandling, maxAiCalls));
  }
}
