/**
 * `find_line_number_of_relevant_line_in_file`: maps between a line of a
 * file's patch and its line number in the new file.
 *
 * While the patch is walked, `delta` restarts at 0 on each hunk header and
 * grows by one on every line that is not a deletion; the line number of the
 * current line is `start2 + delta - 1`. The header's counts are converted with
 * `int`, so a header the pattern rejects raises `AttributeError` and one
 * without a count raises `TypeError`.
 *
 * `difflib.get_close_matches` is the parameter `closeMatches`.
 */
module LineResolver {
  import opened Wrappers
  import opened Text
  import opened HunkHeaders
  import opened PrTypes

  /** The walk's counters: `delta` and the hunk's new start. */
  datatype Counters = Counters(delta: int, start2: int)
  {
    function LineNumber(): int { start2 + delta - 1 }
  }

  /** Looking up a line number (reverse) or the text of a line (forward). */
  datatype Query = Reverse(target: int) | Forward(text: string)

  /** The counters after one line. */
  function Advance(line: string, c: Counters): Result<Counters>
  {
    if StartsWith(line, "@@") then
      match MatchHeader(line)
      case None => Err(AttributeError)
      case Some(m) =>
        if m.count1.None? || m.count2.None? then Err(TypeError) else Ok(Counters(0, m.start2))
    else if !StartsWith(line, "-") then Ok(c.(delta := c.delta + 1))
    else Ok(c)
  }

  /** Whether a line answers the query, once the counters include it. */
  function Hit(line: string, c: Counters, q: Query): Result<bool>
  {
    match q
    case Reverse(t) => Ok(c.LineNumber() == t)
    case Forward(text) =>
      if !Contains(line, text) then Ok(false)
      else if line == [] then Err(IndexError)
      else Ok(line[0] != '-')
  }

  /** The counters after the first `n` lines, starting from `c0`, when `adv` updates them line by line. */
  function Track(lines: seq<string>, n: nat, c0: Counters, adv: (string, Counters) -> Result<Counters>): Result<Counters>
    requires n <= |lines|
  {
    if n == 0 then Ok(c0)
    else match Track(lines, n - 1, c0, adv)
      case Err(e) => Err(e)
      case Ok(c) => adv(lines[n - 1], c)
  }

  /** The counters once line `k` is included. */
  function After(lines: seq<string>, k: nat, c0: Counters, adv: (string, Counters) -> Result<Counters>): Result<Counters>
    requires k < |lines|
  {
    Track(lines, k + 1, c0, adv)
  }

  /** The walk from line `i` with counters `c`: the first hit, its index and line number. */
  function ScanFrom(lines: seq<string>, i: nat, c: Counters, q: Query, adv: (string, Counters) -> Result<Counters>)
    : Result<Option<(nat, int)>>
    requires i <= |lines|
    decreases |lines| - i
  {
    if i == |lines| then Ok(None)
    else match adv(lines[i], c)
      case Err(e) => Err(e)
      case Ok(c1) =>
        match Hit(lines[i], c1, q)
        case Err(e) => Err(e)
        case Ok(true) => Ok(Some((i, c1.LineNumber())))
        case Ok(false) => ScanFrom(lines, i + 1, c1, q, adv)
  }

  /** The counters a walk over a file's patch starts from. */
  const Start := Counters(0, 0)

  /** The walk of `find_line_number_of_relevant_line_in_file` over one patch. */
  function Scan(lines: seq<string>, q: Query): Result<Option<(nat, int)>>
  {
    ScanFrom(lines, 0, Start, q, Advance)
  }

  /**
   * One walk over the patch lines from the counters `c0`, stopping at the
   * first hit; `adv` is the update of the counters for one line, `Advance`
   * in the model. When nothing is hit, `last` holds the counters the walk
   * ended with.
   */
  method ScanPatch(patchLines: seq<string>, c0: Counters, q: Query, adv: (string, Counters) -> Result<Counters>)
    returns (r: Result<Option<(nat, int)>>, last: Counters)
    ensures r == ScanFrom(patchLines, 0, c0, q, adv)
    ensures r == Ok(None) ==> Track(patchLines, |patchLines|, c0, adv) == Ok(last)
  {
    var delta, start2 := c0.delta, c0.start2;
    var i: nat := 0;
    while i < |patchLines|
      invariant i <= |patchLines|
      invariant Track(patchLines, i, c0, adv) == Ok(Counters(delta, start2))
      invariant ScanFrom(patchLines, i, Counters(delta, start2), q, adv) == ScanFrom(patchLines, 0, c0, q, adv)
    {
      var line := patchLines[i];
      var next := adv(line, Counters(delta, start2));
      if next.Err? {
        return Err(next.error), Counters(delta, start2);
      }
      delta, start2 := next.value.delta, next.value.start2;
      var hit := Hit(line, next.value, q);
      if hit.Err? {
        return Err(hit.error), Counters(delta, start2);
      }
      if hit.value {
        return Ok(Some((i, start2 + delta - 1))), Counters(delta, start2);
      }
      i := i + 1;
    }
    return Ok(None), Counters(delta, start2);
  }

  /** Line `k` is walked without error and is not a hit. */
  predicate Miss(lines: seq<string>, k: nat, c0: Counters, q: Query, adv: (string, Counters) -> Result<Counters>)
    requires k < |lines|
  {
    After(lines, k, c0, adv).Ok? && Hit(lines[k], After(lines, k, c0, adv).value, q) == Ok(false)
  }

  /** Line `p` is walked without error and is a hit, with line number `n`. */
  predicate HitAt(lines: seq<string>, p: nat, n: int, c0: Counters, q: Query, adv: (string, Counters) -> Result<Counters>)
    requires p < |lines|
  {
    After(lines, p, c0, adv).Ok? && Hit(lines[p], After(lines, p, c0, adv).value, q) == Ok(true)
    && n == After(lines, p, c0, adv).value.LineNumber()
  }

  /** An answer of the walk is the first line that is a hit, with its line number. */
  lemma {:induction false} ScanFromFound(lines: seq<string>, i: nat, c0: Counters, q: Query, adv: (string, Counters) -> Result<Counters>)
    requires i <= |lines| && Track(lines, i, c0, adv).Ok?
    requires var r := ScanFrom(lines, i, Track(lines, i, c0, adv).value, q, adv); r.Ok? && r.value.Some?
    ensures var (p, n) := ScanFrom(lines, i, Track(lines, i, c0, adv).value, q, adv).value.value;
            && i <= p < |lines| && HitAt(lines, p, n, c0, q, adv)
            && forall k :: i <= k < p ==> Miss(lines, k, c0, q, adv)
    decreases |lines| - i
  {
    var c := Track(lines, i, c0, adv).value;
    assert Track(lines, i + 1, c0, adv) == adv(lines[i], c);
    var c1 := adv(lines[i], c).value;
    if Hit(lines[i], c1, q) == Ok(false) {
      ScanFromFound(lines, i + 1, c0, q, adv);
    }
  }

  /** When the walk finds nothing, every line was walked and none was a hit. */
  lemma {:induction false} ScanFromNone(lines: seq<string>, i: nat, c0: Counters, q: Query, adv: (string, Counters) -> Result<Counters>)
    requires i <= |lines| && Track(lines, i, c0, adv).Ok?
    requires ScanFrom(lines, i, Track(lines, i, c0, adv).value, q, adv) == Ok(None)
    ensures forall k :: i <= k < |lines| ==> Miss(lines, k, c0, q, adv)
    decreases |lines| - i
  {
    if i < |lines| {
      var c := Track(lines, i, c0, adv).value;
      assert Track(lines, i + 1, c0, adv) == adv(lines[i], c);
      ScanFromNone(lines, i + 1, c0, q, adv);
    }
  }

  /** The line number of line `k` of a patch, as the walk computes it. */
  function LineNumberAt(lines: seq<string>, k: nat): Result<int>
    requires k < |lines|
  {
    match After(lines, k, Start, Advance)
    case Err(e) => Err(e)
    case Ok(c) => Ok(c.LineNumber())
  }

  /** Reverse lookup gives the first line whose line number is the target. */
  lemma ReverseFindsFirst(lines: seq<string>, target: int)
    ensures var r := Scan(lines, Reverse(target));
            && (r.Ok? && r.value.Some? ==>
                  var p := r.value.value.0;
                  && p < |lines| && LineNumberAt(lines, p) == Ok(target)
                  && forall k :: 0 <= k < p ==> LineNumberAt(lines, k).Ok? && LineNumberAt(lines, k) != Ok(target))
            && (r == Ok(None) ==>
                  forall k :: 0 <= k < |lines| ==> LineNumberAt(lines, k).Ok? && LineNumberAt(lines, k) != Ok(target))
  {
    var r := Scan(lines, Reverse(target));
    if r.Ok? && r.value.Some? {
      ScanFromFound(lines, 0, Start, Reverse(target), Advance);
      var p := r.value.value.0;
      forall k | 0 <= k < p
        ensures LineNumberAt(lines, k).Ok? && LineNumberAt(lines, k) != Ok(target)
      {
        assert Miss(lines, k, Start, Reverse(target), Advance);
      }
    } else if r == Ok(None) {
      ScanFromNone(lines, 0, Start, Reverse(target), Advance);
      forall k | 0 <= k < |lines|
        ensures LineNumberAt(lines, k).Ok? && LineNumberAt(lines, k) != Ok(target)
      {
        assert Miss(lines, k, Start, Reverse(target), Advance);
      }
    }
  }

  /** The line does not answer a forward lookup of `text`: it lacks the text or is a deletion. */
  predicate NotForwardHit(line: string, text: string)
  {
    !Contains(line, text) || (line != [] && line[0] == '-')
  }

  /** Forward lookup gives the first line that holds the text and is not a deletion, with its line number. */
  lemma ForwardFindsFirst(lines: seq<string>, text: string)
    ensures var r := Scan(lines, Forward(text));
            && (r.Ok? && r.value.Some? ==>
                  var p := r.value.value.0;
                  && p < |lines| && Contains(lines[p], text) && lines[p] != [] && lines[p][0] != '-'
                  && LineNumberAt(lines, p) == Ok(r.value.value.1)
                  && forall k :: 0 <= k < p ==> NotForwardHit(lines[k], text))
            && (r == Ok(None) ==> forall k :: 0 <= k < |lines| ==> NotForwardHit(lines[k], text))
  {
    var r := Scan(lines, Forward(text));
    if r.Ok? && r.value.Some? {
      ScanFromFound(lines, 0, Start, Forward(text), Advance);
      var p := r.value.value.0;
      forall k | 0 <= k < p
        ensures NotForwardHit(lines[k], text)
      {
        assert Miss(lines, k, Start, Forward(text), Advance);
      }
    } else if r == Ok(None) {
      ScanFromNone(lines, 0, Start, Forward(text), Advance);
      forall k | 0 <= k < |lines|
        ensures NotForwardHit(lines[k], text)
      {
        assert Miss(lines, k, Start, Forward(text), Advance);
      }
    }
  }

  /** A header line itself has line number `start2 - 1`, so a target of `start2 - 1` lands on the header. */
  lemma HeaderLineNumber(lines: seq<string>, k: nat)
    requires k < |lines| && StartsWith(lines[k], "@@") && LineNumberAt(lines, k).Ok?
    ensures MatchHeader(lines[k]).Some?
    ensures LineNumberAt(lines, k) == Ok(MatchHeader(lines[k]).value.start2 - 1)
  {
    assert Track(lines, k + 1, Start, Advance) == Advance(lines[k], Track(lines, k, Start, Advance).value);
  }

  // ----- over the files -----

  /** The loop's variables across files. */
  datatype Found = Found(position: int, absolutePosition: int, query: string)

  /** The text actually searched for: the unique close match when it is an addition, else the query. */
  function Refined(query: string, patchLines: seq<string>, closeMatches: (string, seq<string>) -> seq<string>): string
  {
    var m := closeMatches(query, patchLines);
    if |m| == 1 && StartsWith(m[0], "+") then m[0] else query
  }

  /** Handling one file whose name matches. */
  function FileStep(patch: string, st: Found, closeMatches: (string, seq<string>) -> seq<string>): Result<Found>
  {
    var lines := SplitLines(patch);
    if st.absolutePosition != -1 then
      match Scan(lines, Reverse(st.absolutePosition))
      case Err(e) => Err(e)
      case Ok(None) => Ok(st)
      case Ok(Some((p, _))) => Ok(st.(position := p))
    else
      var q := Refined(st.query, lines, closeMatches);
      match Scan(lines, Forward(q))
      case Err(e) => Err(e)
      case Ok(first) =>
        var st1 := if first.Some? then Found(first.value.0, first.value.1, q) else st.(query := q);
        if st1.position != -1 then Ok(st1)
        else if q == [] then Err(IndexError)
        else if q[0] != '+' then Ok(st1)
        else match Track(lines, |lines|, Start, Advance)
          case Err(e) => Err(e)
          case Ok(last) =>
            match ScanFrom(lines, 0, last, Forward(LStrip(q[1..])), Advance)
            case Err(e) => Err(e)
            case Ok(None) => Ok(st1)
            case Ok(Some((p, a))) => Ok(st1.(position := p, absolutePosition := a))
  }

  predicate NameMatches(filename: string, relevantFile: string)
  {
    filename != [] && Strip(filename) == relevantFile
  }

  /** The loop over the files from index `k`. */
  function FilesFrom(files: seq<(string, string)>, k: nat, relevantFile: string, st: Found,
                     closeMatches: (string, seq<string>) -> seq<string>): Result<Found>
    requires k <= |files|
    decreases |files| - k
  {
    if k == |files| then Ok(st)
    else if !NameMatches(files[k].0, relevantFile) then FilesFrom(files, k + 1, relevantFile, st, closeMatches)
    else match FileStep(files[k].1, st, closeMatches)
      case Err(e) => Err(e)
      case Ok(st1) => FilesFrom(files, k + 1, relevantFile, st1, closeMatches)
  }

  /** The answer for (name, patch) pairs: (position, absolute position), or the error raised. */
  function Resolve(files: seq<(string, string)>, relevantFile: string, relevantLine: string, absolutePosition: Option<int>,
                   closeMatches: (string, seq<string>) -> seq<string>): (r: Result<(int, int)>)
    ensures files == [] ==> r == Ok((-1, absolutePosition.GetOr(-1)))
  {
    var abs := absolutePosition.GetOr(-1);
    if files == [] then Ok((-1, abs))
    else match FilesFrom(files, 0, relevantFile, Found(-1, abs, relevantLine), closeMatches)
      case Err(e) => Err(e)
      case Ok(st) => Ok((st.position, st.absolutePosition))
  }

  /** When no file has the requested name, nothing is found and the given position comes back. */
  lemma {:induction false} NoSuchFile(files: seq<(string, string)>, k: nat, relevantFile: string, st: Found,
                                      closeMatches: (string, seq<string>) -> seq<string>)
    requires k <= |files|
    requires forall j :: k <= j < |files| ==> !NameMatches(files[j].0, relevantFile)
    ensures FilesFrom(files, k, relevantFile, st, closeMatches) == Ok(st)
    decreases |files| - k
  {
    if k < |files| {
      NoSuchFile(files, k + 1, relevantFile, st, closeMatches);
    }
  }

  lemma NoSuchFileResolve(files: seq<(string, string)>, relevantFile: string, relevantLine: string, absolutePosition: Option<int>,
                          closeMatches: (string, seq<string>) -> seq<string>)
    requires forall j :: 0 <= j < |files| ==> !NameMatches(files[j].0, relevantFile)
    ensures Resolve(files, relevantFile, relevantLine, absolutePosition, closeMatches) == Ok((-1, absolutePosition.GetOr(-1)))
  {
    NoSuchFile(files, 0, relevantFile, Found(-1, absolutePosition.GetOr(-1), relevantLine), closeMatches);
  }

  /**
   * In forward mode, the '+'-stripped retry runs only when the first walk
   * found nothing and the text searched for starts with '+'.
   */
  lemma RetryOnlyWhenMissing(patch: string, st: Found, closeMatches: (string, seq<string>) -> seq<string>)
    requires st.absolutePosition == -1 && st.position == -1
    requires var lines := SplitLines(patch);
             var q := Refined(st.query, lines, closeMatches);
             Scan(lines, Forward(q)).Ok? && (Scan(lines, Forward(q)).value.Some? || (q != [] && q[0] != '+'))
    ensures var lines := SplitLines(patch);
            var q := Refined(st.query, lines, closeMatches);
            var first := Scan(lines, Forward(q)).value;
            FileStep(patch, st, closeMatches)
              == Ok(if first.Some? then Found(first.value.0, first.value.1, q) else st.(query := q))
  {
    var lines := SplitLines(patch);
    var q := Refined(st.query, lines, closeMatches);
    ForwardFindsFirst(lines, q);
    var first := Scan(lines, Forward(q)).value;
    if first.Some? {
      assert first.value.0 >= 0;
    }
  }

  /**
   * The '+'-stripped retry walks the patch again without resetting the
   * counters: it gives the first line that holds the text and is not a
   * deletion, numbered from the counters the first walk ended with.
   */
  lemma RetryFindsFirst(lines: seq<string>, text: string)
    requires Track(lines, |lines|, Start, Advance).Ok?
    ensures var last := Track(lines, |lines|, Start, Advance).value;
            var r := ScanFrom(lines, 0, last, Forward(text), Advance);
            && (r.Ok? && r.value.Some? ==>
                  var p := r.value.value.0;
                  && p < |lines| && Contains(lines[p], text) && lines[p] != [] && lines[p][0] != '-'
                  && After(lines, p, last, Advance).Ok?
                  && r.value.value.1 == After(lines, p, last, Advance).value.LineNumber()
                  && forall k :: 0 <= k < p ==> NotForwardHit(lines[k], text))
            && (r == Ok(None) ==> forall k :: 0 <= k < |lines| ==> NotForwardHit(lines[k], text))
  {
    var last := Track(lines, |lines|, Start, Advance).value;
    var r := ScanFrom(lines, 0, last, Forward(text), Advance);
    assert Track(lines, 0, last, Advance) == Ok(last);
    if r.Ok? && r.value.Some? {
      ScanFromFound(lines, 0, last, Forward(text), Advance);
      var p := r.value.value.0;
      forall k | 0 <= k < p
        ensures NotForwardHit(lines[k], text)
      {
        assert Miss(lines, k, last, Forward(text), Advance);
      }
    } else if r == Ok(None) {
      ScanFromNone(lines, 0, last, Forward(text), Advance);
      forall k | 0 <= k < |lines|
        ensures NotForwardHit(lines[k], text)
      {
        assert Miss(lines, k, last, Forward(text), Advance);
      }
    }
  }

  /** The (name, patch) pairs of the file records. */
  function Snapshot(files: seq<FilePatchInfo>): (r: seq<(string, string)>)
    reads files
    ensures |r| == |files|
    ensures forall k :: 0 <= k < |files| ==> r[k] == (files[k].filename, files[k].patch)
  {
    if files == [] then [] else [(files[0].filename, files[0].patch)] + Snapshot(files[1..])
  }

  /** `find_line_number_of_relevant_line_in_file`. */
  method FindLineNumberOfRelevantLineInFile(diffFiles: seq<FilePatchInfo>, relevantFile: string, relevantLineInFile: string,
                                            absolutePosition: Option<int>,
                                            closeMatches: (string, seq<string>) -> seq<string>)
    returns (r: Result<(int, int)>)
    ensures r == Resolve(Snapshot(diffFiles), relevantFile, relevantLineInFile, absolutePosition, closeMatches)
  {
    var position := -1;
    var absolute := if absolutePosition.None? then -1 else absolutePosition.value;
    if diffFiles == [] {
      return Ok((position, absolute));
    }
    ghost var files := Snapshot(diffFiles);
    var query := relevantLineInFile;
    for k := 0 to |diffFiles|
      invariant FilesFrom(files, k, relevantFile, Found(position, absolute, query), closeMatches)
                == FilesFrom(files, 0, relevantFile, Found(-1, absolutePosition.GetOr(-1), relevantLineInFile), closeMatches)
    {
      var file := diffFiles[k];
      if file.filename != [] && Strip(file.filename) == relevantFile {
        var next := ResolveInFile(file.patch, Found(position, absolute, query), closeMatches);
        if next.Err? {
          return Err(next.error);
        }
        position, absolute, query := next.value.position, next.value.absolutePosition, next.value.query;
      }
    }
    return Ok((position, absolute));
  }

  /** The body of the loop for a file whose name matches. */
  method ResolveInFile(patch: string, st: Found, closeMatches: (string, seq<string>) -> seq<string>)
    returns (r: Result<Found>)
    ensures r == FileStep(patch, st, closeMatches)
  {
    var patchLines := SplitLines(patch);
    if st.absolutePosition != -1 {
      var found, _ := ScanPatch(patchLines, Start, Reverse(st.absolutePosition), Advance);
      if found.Err? {
        return Err(found.error);
      }
      if found.value.Some? {
        return Ok(st.(position := found.value.value.0));
      }
      return Ok(st);
    }
    var relevantLine := st.query;
    var matches := closeMatches(relevantLine, patchLines);
    if |matches| == 1 && StartsWith(matches[0], "+") {
      relevantLine := matches[0];
    }
    var position, absolute := st.position, st.absolutePosition;
    var first, last := ScanPatch(patchLines, Start, Forward(relevantLine), Advance);
    if first.Err? {
      return Err(first.error);
    }
    if first.value.Some? {
      position, absolute := first.value.value.0, first.value.value.1;
    }
    if position == -1 {
      if relevantLine == [] {
        return Err(IndexError);
      }
      if relevantLine[0] == '+' {
        var noPlusLine := LStrip(relevantLine[1..]);
        // the walk goes on from the counters the first walk ended with
        var second, _ := ScanPatch(patchLines, last, Forward(noPlusLine), Advance);
        if second.Err? {
          return Err(second.error);
        }
        if second.value.Some? {
          position, absolute := second.value.value.0, second.value.value.1;
        }
      }
    }
    return Ok(Found(position, absolute, relevantLine));
  }
}
