/**
 * The GitLab diff handler: the merge request's files as patch records,
 * cached on the provider, and the search for a line inside their patches.
 */
module GitlabDiff {
  import opened Wrappers
  import opened Text
  import opened PrTypes
  import HunkHeaders
  import opened GitlabChanges

  // ----- lines of a patch -----

  /** The kind of a diff line, by its first character. */
  datatype LineEdit = Context | Deletion | Addition

  /** `get_edit_type`: reading the first character of an empty line raises `IndexError`. */
  function GetEditType(line: string): (r: Result<LineEdit>)
    ensures r.Err? <==> line == []
    ensures r.Err? ==> r.error == IndexError
    ensures r.Ok? ==> (r.value == Deletion <==> line[0] == '-')
    ensures r.Ok? ==> (r.value == Addition <==> line[0] == '+')
    ensures r.Ok? ==> (r.value == Context <==> line[0] != '-' && line[0] != '+')
  {
    if line == [] then Err(IndexError)
    else if line[0] == '-' then Ok(Deletion)
    else if line[0] == '+' then Ok(Addition)
    else Ok(Context)
  }

  /** The line holds the query, or the query is `+text` and the line holds `text` left-stripped. */
  predicate Matches(query: string, line: string)
  {
    Contains(line, query) || (query != [] && query[0] == '+' && Contains(line, LStrip(query[1..])))
  }

  /** The (source, target) counters after a line that is not a header. */
  function Advance(source: int, target: int, line: string): (int, int)
  {
    if StartsWith(line, "-") then (source + 1, target)
    else if StartsWith(line, "+") then (source, target + 1)
    else if StartsWith(line, " ") then (source + 1, target + 1)
    else (source, target)
  }

  /** The stored file a search ran in, with what it found. */
  datatype LineHit = LineHit(editType: LineEdit, found: bool, sourceLineNo: int, targetFile: PatchFile,
                             targetLineNo: int)

  /**
   * The fields of the `FilePatchInfo` the handler builds for a change;
   * `oldFilename` is `None` when the path did not change.
   */
  datatype PatchFile = PatchFile(baseFile: string, headFile: string, patch: string, filename: string,
                                 editType: EditType, oldFilename: Option<string>,
                                 numPlusLines: nat, numMinusLines: nat)

  /**
   * The scan of `find_in_file` from line `k` with counters (source, target):
   * a header sets them to the hunk's two starts, an `@@` line that is not a
   * header is passed over, and the first other line that matches stops the
   * scan with its counters and its edit type.
   */
  function Scan(lines: seq<string>, k: nat, source: int, target: int, query: string, file: PatchFile)
    : Result<LineHit>
    requires k <= |lines|
    decreases |lines| - k
  {
    if k == |lines| then Ok(LineHit(Context, false, source, file, target))
    else if StartsWith(lines[k], "@@") then
      match HunkHeaders.MatchHeader(lines[k])
      case None => Scan(lines, k + 1, source, target, query, file)
      case Some(m) => Scan(lines, k + 1, m.start1, m.start2, query, file)
    else
      var (s, t) := Advance(source, target, lines[k]);
      if Matches(query, lines[k]) then
        match GetEditType(lines[k])
        case Err(e) => Err(e)
        case Ok(editType) => Ok(LineHit(editType, true, s, file, t))
      else Scan(lines, k + 1, s, t, query, file)
  }

  function FindSpec(file: PatchFile, query: string): Result<LineHit>
  {
    Scan(SplitLines(file.patch), 0, 0, 0, query, file)
  }

  /** `find_in_file`. */
  method FindInFile(file: PatchFile, query: string) returns (r: Result<LineHit>)
    ensures r == FindSpec(file, query)
  {
    var patchLines := SplitLines(file.patch);
    var sourceLineNo := 0;
    var targetLineNo := 0;
    var k := 0;
    while k < |patchLines|
      invariant k <= |patchLines|
      invariant Scan(patchLines, 0, 0, 0, query, file) == Scan(patchLines, k, sourceLineNo, targetLineNo, query, file)
    {
      var line := patchLines[k];
      if StartsWith(line, "@@") {
        var m := HunkHeaders.MatchHeader(line);
        if m.Some? {
          sourceLineNo := m.value.start1;
          targetLineNo := m.value.start2;
        }
        k := k + 1;
        continue;
      }
      ghost var before := (sourceLineNo, targetLineNo);
      if StartsWith(line, "-") {
        sourceLineNo := sourceLineNo + 1;
      } else if StartsWith(line, "+") {
        targetLineNo := targetLineNo + 1;
      } else if StartsWith(line, " ") {
        sourceLineNo := sourceLineNo + 1;
        targetLineNo := targetLineNo + 1;
      }
      assert (sourceLineNo, targetLineNo) == Advance(before.0, before.1, line);
      if Matches(query, line) {
        var editType := GetEditType(line);
        if editType.Err? {
          return Err(editType.error);
        }
        return Ok(LineHit(editType.value, true, sourceLineNo, file, targetLineNo));
      }
      k := k + 1;
    }
    return Ok(LineHit(Context, false, sourceLineNo, file, targetLineNo));
  }

  // ----- properties of the scan -----

  /** A line the scan tests: not an `@@` line. */
  predicate Tested(line: string) { !StartsWith(line, "@@") }

  /**
   * The scan reports a hit (or fails on an empty hit line) exactly when
   * some tested line from `k` on matches; a miss reports `context`; a hit
   * is the first matching tested line.
   */
  lemma {:induction false} ScanFound(lines: seq<string>, k: nat, source: int, target: int, query: string,
                                     file: PatchFile)
    requires k <= |lines|
    ensures var r := Scan(lines, k, source, target, query, file);
            (r.Err? || r.value.found) <==> exists j :: k <= j < |lines| && Tested(lines[j]) && Matches(query, lines[j])
    decreases |lines| - k
  {
    if k < |lines| {
      if StartsWith(lines[k], "@@") {
        match HunkHeaders.MatchHeader(lines[k])
        case None => ScanFound(lines, k + 1, source, target, query, file);
        case Some(m) => ScanFound(lines, k + 1, m.start1, m.start2, query, file);
      } else {
        var (s, t) := Advance(source, target, lines[k]);
        ScanFound(lines, k + 1, s, t, query, file);
      }
    }
  }

  /** A miss reports `context`, the hit names the file searched, and the only failure is an empty hit line. */
  lemma {:induction false} ScanShape(lines: seq<string>, k: nat, source: int, target: int, query: string,
                                     file: PatchFile)
    requires k <= |lines|
    ensures var r := Scan(lines, k, source, target, query, file);
            && (r.Ok? && !r.value.found ==> r.value.editType == Context)
            && (r.Ok? ==> r.value.targetFile == file)
            && (r.Err? ==> r.error == IndexError)
    decreases |lines| - k
  {
    if k < |lines| {
      if StartsWith(lines[k], "@@") {
        match HunkHeaders.MatchHeader(lines[k])
        case None => ScanShape(lines, k + 1, source, target, query, file);
        case Some(m) => ScanShape(lines, k + 1, m.start1, m.start2, query, file);
      } else {
        var (s, t) := Advance(source, target, lines[k]);
        ScanShape(lines, k + 1, s, t, query, file);
      }
    }
  }

  /** The counters after `lines` with no header: one more source line per '-' or ' ' line, one more target line per '+' or ' ' line. */
  function SourceSteps(lines: seq<string>): nat
  {
    if lines == [] then 0
    else SourceSteps(lines[..|lines| - 1])
         + (if StartsWith(lines[|lines| - 1], "-") || StartsWith(lines[|lines| - 1], " ") then 1 else 0)
  }

  function TargetSteps(lines: seq<string>): nat
  {
    if lines == [] then 0
    else TargetSteps(lines[..|lines| - 1])
         + (if StartsWith(lines[|lines| - 1], "+") || StartsWith(lines[|lines| - 1], " ") then 1 else 0)
  }

  /** A line that starts with '-' does not start with '+' or ' ', and so on. */
  lemma AdvanceSteps(source: int, target: int, line: string)
    ensures Advance(source, target, line)
         == (source + (if StartsWith(line, "-") || StartsWith(line, " ") then 1 else 0),
             target + (if StartsWith(line, "+") || StartsWith(line, " ") then 1 else 0))
  {
    if StartsWith(line, "-") {
      assert line[0] == '-';
      assert !StartsWith(line, "+") && !StartsWith(line, " ");
    } else if StartsWith(line, "+") {
      assert line[0] == '+';
      assert !StartsWith(line, " ");
    }
  }

  /**
   * Over a stretch of lines with no `@@` line and no match, the counters
   * move by the number of lines on each side.
   */
  lemma {:induction false} ScanCounts(lines: seq<string>, k: nat, n: nat, source: int, target: int, query: string,
                                      file: PatchFile)
    requires k <= n <= |lines|
    requires forall j :: k <= j < n ==> Tested(lines[j]) && !Matches(query, lines[j])
    ensures Scan(lines, k, source, target, query, file)
         == Scan(lines, n, source + SourceSteps(lines[k..n]), target + TargetSteps(lines[k..n]), query, file)
    decreases n - k
  {
    if k < n {
      AdvanceSteps(source, target, lines[k]);
      var (s, t) := Advance(source, target, lines[k]);
      ScanCounts(lines, k + 1, n, s, t, query, file);
      StepsCons(lines[k..n]);
      assert lines[k..n][1..] == lines[k + 1..n];
    }
  }

  /** The counts taken from the front. */
  lemma {:induction false} StepsCons(lines: seq<string>)
    requires lines != []
    ensures SourceSteps(lines)
         == (if StartsWith(lines[0], "-") || StartsWith(lines[0], " ") then 1 else 0) + SourceSteps(lines[1..])
    ensures TargetSteps(lines)
         == (if StartsWith(lines[0], "+") || StartsWith(lines[0], " ") then 1 else 0) + TargetSteps(lines[1..])
    decreases |lines|
  {
    if |lines| > 1 {
      var init := lines[..|lines| - 1];
      StepsCons(init);
      assert init[1..] == lines[1..][..|lines[1..]| - 1];
      assert init[0] == lines[0];
    } else {
      assert lines[1..] == [];
    }
  }

  /** A hunk header sets the counters to its starts, whatever they were. */
  lemma HeaderResets(lines: seq<string>, k: nat, source: int, target: int, query: string, file: PatchFile,
                     s1: nat, n1: nat, s2: nat, n2: nat, section: string)
    requires k < |lines| && lines[k] == HunkHeaders.RenderHeader(s1, n1, s2, n2, section)
    requires forall j :: 0 <= j < |section| ==> section[j] != '\n'
    ensures Scan(lines, k, source, target, query, file) == Scan(lines, k + 1, s1, s2, query, file)
  {
    HunkHeaders.RenderThenMatch(s1, n1, s2, n2, section);
    HunkHeaders.HeaderStartsWithAt(lines[k]);
  }

  // ----- search_line -----

  /**
   * `search_line` over the provider's files: every file with the requested
   * name is searched and the last one's answer is kept; with none, reading
   * the unassigned `found` raises `NameError`.
   */
  function SearchFrom(files: seq<PatchFile>, n: nat, relevantFile: string, query: string): Result<Option<LineHit>>
    requires n <= |files|
  {
    if n == 0 then Ok(None)
    else match SearchFrom(files, n - 1, relevantFile, query)
      case Err(e) => Err(e)
      case Ok(prev) =>
        if files[n - 1].filename != relevantFile then Ok(prev)
        else match FindSpec(files[n - 1], query)
          case Err(e) => Err(e)
          case Ok(hit) => Ok(Some(hit))
  }

  function SearchSpec(files: seq<PatchFile>, relevantFile: string, query: string): Result<LineHit>
  {
    match GetEditType(query)
    case Err(e) => Err(e)
    case Ok(_) =>
      match SearchFrom(files, |files|, relevantFile, query)
      case Err(e) => Err(e)
      case Ok(None) => Err(NameError("found"))
      case Ok(Some(hit)) => Ok(hit)
  }

  method SearchLine(files: seq<PatchFile>, relevantFile: string, query: string) returns (r: Result<LineHit>)
    ensures r == SearchSpec(files, relevantFile, query)
  {
    var editType := GetEditType(query);
    if editType.Err? {
      return Err(editType.error);
    }
    var last: Option<LineHit> := None;
    for n := 0 to |files|
      invariant SearchFrom(files, n, relevantFile, query) == Ok(last)
    {
      if files[n].filename == relevantFile {
        var hit := FindInFile(files[n], query);
        if hit.Err? {
          assert SearchFrom(files, n + 1, relevantFile, query) == Err(hit.error);
          SearchErrStays(files, n + 1, relevantFile, query);
          return Err(hit.error);
        }
        last := Some(hit.value);
      }
    }
    if last.None? {
      return Err(NameError("found"));
    }
    return Ok(last.value);
  }

  /** Once a search has raised, the later files do not change that. */
  lemma {:induction false} SearchErrStays(files: seq<PatchFile>, n: nat, relevantFile: string, query: string)
    requires n <= |files| && SearchFrom(files, n, relevantFile, query).Err?
    ensures SearchFrom(files, |files|, relevantFile, query) == SearchFrom(files, n, relevantFile, query)
    decreases |files| - n
  {
    if n < |files| {
      SearchErrStays(files, n + 1, relevantFile, query);
    }
  }

  /** Without a file of that name the search raises `NameError` (for a non-empty query). */
  lemma NoSuchFileRaises(files: seq<PatchFile>, relevantFile: string, query: string)
    requires forall j :: 0 <= j < |files| ==> files[j].filename != relevantFile
    ensures query != [] ==> SearchSpec(files, relevantFile, query) == Err(NameError("found"))
  {
    NoSuchFile(files, |files|, relevantFile, query);
  }

  lemma {:induction false} NoSuchFile(files: seq<PatchFile>, n: nat, relevantFile: string, query: string)
    requires n <= |files|
    requires forall j :: 0 <= j < n ==> files[j].filename != relevantFile
    ensures SearchFrom(files, n, relevantFile, query) == Ok(None)
  {
    if n > 0 {
      NoSuchFile(files, n - 1, relevantFile, query);
    }
  }

  /** With exactly one file of that name, the search is that file's scan. */
  lemma {:induction false} OneFileSearched(files: seq<PatchFile>, n: nat, i: nat, relevantFile: string, query: string)
    requires i < n <= |files| && files[i].filename == relevantFile
    requires forall j :: 0 <= j < |files| && j != i ==> files[j].filename != relevantFile
    requires FindSpec(files[i], query).Ok?
    ensures SearchFrom(files, n, relevantFile, query) == Ok(Some(FindSpec(files[i], query).value))
  {
    if n - 1 == i {
      NoSuchFile(files, i, relevantFile, query);
    } else {
      OneFileSearched(files, n - 1, i, relevantFile, query);
    }
  }

  // ----- get_diff_files -----

  /** Edit type by the change's flags: new, then deleted, then renamed, else modified. */
  function EditTypeOf(ch: Change): (r: EditType)
    ensures r == Added <==> ch.newFile
    ensures r == Deleted <==> !ch.newFile && ch.deletedFile
    ensures r == Renamed <==> !ch.newFile && !ch.deletedFile && ch.renamedFile
    ensures r == Modified <==> !ch.newFile && !ch.deletedFile && !ch.renamedFile
  {
    if ch.newFile then Added
    else if ch.deletedFile then Deleted
    else if ch.renamedFile then Renamed
    else Modified
  }

  /** The number of lines that start with `c`. */
  function CountStarting(lines: seq<string>, c: char): (r: nat)
    ensures r <= |lines|
  {
    if lines == [] then 0
    else CountStarting(lines[..|lines| - 1], c) + (if lines[|lines| - 1] != [] && lines[|lines| - 1][0] == c then 1 else 0)
  }

  /** No line starts with both '+' and '-', so the two counts together never exceed the number of lines. */
  lemma {:induction false} PlusMinusBound(lines: seq<string>)
    ensures CountStarting(lines, '+') + CountStarting(lines, '-') <= |lines|
  {
    if lines != [] {
      PlusMinusBound(lines[..|lines| - 1]);
    }
  }

  /** Counting over two stretches of lines adds up. */
  lemma {:induction false} CountAppend(xs: seq<string>, ys: seq<string>, c: char)
    ensures CountStarting(xs + ys, c) == CountStarting(xs, c) + CountStarting(ys, c)
    decreases |ys|
  {
    if ys != [] {
      var init := ys[..|ys| - 1];
      CountAppend(xs, init, c);
      assert (xs + ys)[..|xs + ys| - 1] == xs + init;
    } else {
      assert xs + ys == xs;
    }
  }

  /** What the handler reads from its environment. */
  datatype Env = Env(isValidFile: string -> bool, content: (string, string) -> string,
                     loadLargeDiff: (string, string, string) -> string,
                     baseSha: string, headSha: string, maxFilesAllowed: int)

  /** The record for a change, its contents loaded or not. */
  function FileOf(ch: Change, original: string, new_: string, env: Env): (r: PatchFile)
    ensures r.filename == ch.newPath && r.editType == EditTypeOf(ch)
    ensures r.oldFilename == None <==> ch.oldPath == ch.newPath
    ensures r.oldFilename.Some? ==> r.oldFilename.value == ch.oldPath
    ensures ch.diff != [] ==> r.patch == ch.diff
    ensures r.numPlusLines + r.numMinusLines <= |SplitLines(r.patch)|
  {
    var patch := if ch.diff != [] then ch.diff else env.loadLargeDiff(ch.newPath, new_, original);
    PlusMinusBound(SplitLines(patch));
    PatchFile(original, new_, patch, ch.newPath, EditTypeOf(ch),
              if ch.oldPath == ch.newPath then None else Some(ch.oldPath),
              CountStarting(SplitLines(patch), '+'), CountStarting(SplitLines(patch), '-'))
  }

  /** The loop's state after some changes: files, content requests, valid files counted. */
  datatype Gathered = Gathered(files: seq<PatchFile>, fetches: seq<(string, string)>, counter: nat)

  /** Full contents are loaded for the first `maxFilesAllowed` valid files and for every file with an empty diff. */
  predicate Loads(counter: nat, ch: Change, env: Env)
  {
    counter <= env.maxFilesAllowed || ch.diff == []
  }

  function Gather(diffs: seq<Change>, n: nat, env: Env): Gathered
    requires n <= |diffs|
  {
    if n == 0 then Gathered([], [], 0)
    else
      var g := Gather(diffs, n - 1, env);
      var ch := diffs[n - 1];
      if !env.isValidFile(ch.newPath) then g
      else
        var counter := g.counter + 1;
        if Loads(counter, ch, env) then
          Gathered(g.files + [FileOf(ch, env.content(ch.oldPath, env.baseSha), env.content(ch.newPath, env.headSha), env)],
                   g.fetches + [(ch.oldPath, env.baseSha), (ch.newPath, env.headSha)], counter)
        else Gathered(g.files + [FileOf(ch, "", "", env)], g.fetches, counter)
  }

  /** The files of a merge request's changes, valid ones only. */
  function ValidPaths(diffs: seq<Change>, n: nat, env: Env): nat
    requires n <= |diffs|
  {
    if n == 0 then 0 else ValidPaths(diffs, n - 1, env) + (if env.isValidFile(diffs[n - 1].newPath) then 1 else 0)
  }

  /**
   * One record per valid change, in order, and the counter counts them.
   * When every diff is non-empty the contents are requested twice (base and
   * head) for each of the first `maxFilesAllowed` valid files and never after.
   */
  lemma {:induction false} GatherCounts(diffs: seq<Change>, n: nat, env: Env)
    requires n <= |diffs|
    ensures var g := Gather(diffs, n, env);
            && g.counter == |g.files| == ValidPaths(diffs, n, env)
            && ((forall j :: 0 <= j < n ==> diffs[j].diff != []) && env.maxFilesAllowed >= 0 ==>
                  |g.fetches| == 2 * Min(g.counter, env.maxFilesAllowed))
  {
    if n > 0 {
      GatherCounts(diffs, n - 1, env);
    }
  }

  /** With every file valid and every diff present, 20 changes and a limit of 6 give 12 content requests. */
  lemma EconomyModeRequests(diffs: seq<Change>, env: Env)
    requires |diffs| == 20 && env.maxFilesAllowed == 6
    requires forall j :: 0 <= j < |diffs| ==> env.isValidFile(diffs[j].newPath) && diffs[j].diff != []
    ensures |Gather(diffs, 20, env).fetches| == 12
    ensures |Gather(diffs, 20, env).files| == 20
  {
    AllValid(diffs, 20, env);
    GatherCounts(diffs, 20, env);
  }

  lemma {:induction false} AllValid(diffs: seq<Change>, n: nat, env: Env)
    requires n <= |diffs|
    requires forall j :: 0 <= j < |diffs| ==> env.isValidFile(diffs[j].newPath)
    ensures ValidPaths(diffs, n, env) == n
  {
    if n > 0 {
      AllValid(diffs, n - 1, env);
    }
  }

  /** The provider's caches, and the submodule handler it expands changes with. */
  class GitlabProvider {
    const submodules: SubmoduleHandler
    var diffFiles: seq<PatchFile>
    var gitFiles: seq<string>
    /** The (path, sha) pairs whose contents were requested, in order. */
    ghost var fetchLog: seq<(string, string)>

    ghost predicate Valid()
      reads this, submodules
    {
      submodules.Valid()
    }

    constructor(submodules: SubmoduleHandler)
      requires submodules.Valid()
      ensures Valid() && this.submodules == submodules
      ensures diffFiles == [] && gitFiles == [] && fetchLog == []
    {
      this.submodules := submodules;
      diffFiles := [];
      gitFiles := [];
      fetchLog := [];
    }

    /**
     * `get_diff_files`: the cached list when there is one; otherwise the
     * merge request's changes, expanded with submodule changes and filtered
     * by the ignore patterns, become one record per valid file, which is
     * cached. Contents are fetched from `env.content`.
     */
    method GetDiffFiles(rawChanges: seq<Change>, enabled: bool, gitmodules: map<string, string>,
                        parsePath: string -> Option<string>, filterIgnored: seq<Change> -> seq<Change>, env: Env)
      returns (files: seq<PatchFile>)
      requires Valid()
      modifies this, submodules
      ensures Valid()
      ensures old(diffFiles) != [] ==> files == old(diffFiles) && fetchLog == old(fetchLog)
      ensures old(diffFiles) == [] ==>
                var g := Gather(filterIgnored(Expanded(rawChanges, enabled, gitmodules, parsePath, submodules.compare)),
                                |filterIgnored(Expanded(rawChanges, enabled, gitmodules, parsePath, submodules.compare))|, env);
                files == g.files && fetchLog == old(fetchLog) + g.fetches
      ensures diffFiles == files && gitFiles == old(gitFiles)
    {
      if diffFiles != [] {
        return diffFiles;
      }
      var expanded := submodules.ExpandSubmoduleChanges(rawChanges, enabled, gitmodules, parsePath);
      var diffs := filterIgnored(expanded);
      files := [];
      ghost var fetches: seq<(string, string)> := [];
      var counterValid := 0;
      ghost var log0 := fetchLog;
      for n := 0 to |diffs|
        invariant files == Gather(diffs, n, env).files
        invariant fetches == Gather(diffs, n, env).fetches
        invariant counterValid == Gather(diffs, n, env).counter
        invariant fetchLog == log0 + fetches
        invariant Valid() && gitFiles == old(gitFiles)
      {
        var ch := diffs[n];
        if !env.isValidFile(ch.newPath) {
          continue;
        }
        counterValid := counterValid + 1;
        var original, new_ := "", "";
        if counterValid <= env.maxFilesAllowed || ch.diff == [] {
          original := env.content(ch.oldPath, env.baseSha);
          new_ := env.content(ch.newPath, env.headSha);
          fetches := fetches + [(ch.oldPath, env.baseSha), (ch.newPath, env.headSha)];
          fetchLog := fetchLog + [(ch.oldPath, env.baseSha), (ch.newPath, env.headSha)];
        }
        var file := BuildFile(ch, original, new_, env);
        files := files + [file];
      }
      diffFiles := files;
    }

    /** `get_files`: the cached names, or the non-empty new paths of the expanded changes. */
    method GetFiles(rawChanges: seq<Change>, enabled: bool, gitmodules: map<string, string>,
                    parsePath: string -> Option<string>)
      returns (names: seq<string>)
      requires Valid()
      modifies this, submodules
      ensures Valid()
      ensures old(gitFiles) != [] ==> names == old(gitFiles)
      ensures old(gitFiles) == [] ==>
                names == NewPaths(Expanded(rawChanges, enabled, gitmodules, parsePath, submodules.compare))
      ensures gitFiles == names && diffFiles == old(diffFiles) && fetchLog == old(fetchLog)
    {
      if gitFiles == [] {
        var expanded := submodules.ExpandSubmoduleChanges(rawChanges, enabled, gitmodules, parsePath);
        gitFiles := CollectNewPaths(expanded);
      }
      names := gitFiles;
    }
  }

  /** The record of one change; the patch is loaded through `load_large_diff` when the diff is empty. */
  method BuildFile(ch: Change, original: string, new_: string, env: Env) returns (file: PatchFile)
    ensures file == FileOf(ch, original, new_, env)
  {
    var patch := ch.diff;
    if patch == [] {
      patch := env.loadLargeDiff(ch.newPath, new_, original);
    }
    var patchLines := SplitLines(patch);
    var numPlusLines := CountStarting(patchLines, '+');
    var numMinusLines := CountStarting(patchLines, '-');
    file := PatchFile(original, new_, patch, ch.newPath, EditTypeOf(ch),
                      if ch.oldPath == ch.newPath then None else Some(ch.oldPath),
                      numPlusLines, numMinusLines);
  }

  /** The non-empty new paths, in order. */
  function NewPaths(changes: seq<Change>): (r: seq<string>)
    ensures forall x :: x in r <==> x != [] && exists j :: 0 <= j < |changes| && changes[j].newPath == x
    ensures |r| <= |changes|
  {
    if changes == [] then []
    else
      var rest := NewPaths(changes[..|changes| - 1]);
      var last := changes[|changes| - 1];
      assert forall j :: 0 <= j < |changes| - 1 ==> changes[..|changes| - 1][j] == changes[j];
      if last.newPath != [] then rest + [last.newPath] else rest
  }

  method CollectNewPaths(changes: seq<Change>) returns (names: seq<string>)
    ensures names == NewPaths(changes)
  {
    names := [];
    for n := 0 to |changes|
      invariant names == NewPaths(changes[..n])
    {
      assert changes[..n + 1][..n] == changes[..n];
      if changes[n].newPath != [] {
        names := names + [changes[n].newPath];
      }
    }
    assert changes[..|changes|] == changes;
  }

  // ----- get_relevant_diff -----

  /**
   * `get_relevant_diff` over the merge request's diff versions: the test
   * inside its loop does not depend on the version, so the answer is the
   * first version when some change of the file holds the line, and the
   * provider's last diff otherwise; no versions give `None`.
   */
  method GetRelevantDiff<D>(changes: seq<Change>, allDiffs: seq<D>, lastDiff: Option<D>,
                            relevantFile: string, relevantLine: string)
    returns (r: Option<D>)
    ensures allDiffs == [] ==> r == None
    ensures allDiffs != [] && (exists j :: 0 <= j < |changes| && Holds(changes[j], relevantFile, relevantLine))
            ==> r == Some(allDiffs[0])
    ensures allDiffs != [] && (forall j :: 0 <= j < |changes| ==> !Holds(changes[j], relevantFile, relevantLine))
            ==> r == lastDiff
  {
    if allDiffs == [] {
      return None;
    }
    for i := 0 to |allDiffs|
      invariant i > 0 ==> forall j :: 0 <= j < |changes| ==> !Holds(changes[j], relevantFile, relevantLine)
    {
      for j := 0 to |changes|
        invariant forall j' :: 0 <= j' < j ==> !Holds(changes[j'], relevantFile, relevantLine)
      {
        if changes[j].newPath == relevantFile && Contains(changes[j].diff, relevantLine) {
          return Some(allDiffs[i]);
        }
      }
    }
    return lastDiff;
  }

  predicate Holds(ch: Change, relevantFile: string, relevantLine: string)
  {
    ch.newPath == relevantFile && Contains(ch.diff, relevantLine)
  }
}
