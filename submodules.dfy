/**
 * GitLab merge request changes, and their expansion with the changes inside
 * updated submodules (`GitLabSubmoduleHandler`).
 */
module GitlabChanges {
  import opened Wrappers
  import opened Text

  /**
   * One entry of a merge request's `changes`; a missing or empty path or
   * diff is "".
   */
  datatype Change = Change(oldPath: string, newPath: string, diff: string,
                           newFile: bool, deletedFile: bool, renamedFile: bool)

  /**
   * One entry of a repository comparison's `diffs`; absent keys are "" or
   * false. `aPath`/`bPath` are the alternative names of the two paths.
   */
  datatype SubDiff = SubDiff(diff: string, oldPath: string, aPath: string, newPath: string, bPath: string,
                             newFile: bool, deletedFile: bool, renamedFile: bool)

  /** Python's `a or b` on strings. */
  function Or(a: string, b: string): string { if a != "" then a else b }

  // ----- project paths -----

  /**
   * `_url_to_project_path`: the part after the first ':' of an SSH URL
   * `git@host:path`, else the URL's path (from `parsePath`, `None` when
   * parsing raises) without leading '/'; then without a final `.git`;
   * `None` when that leaves nothing.
   */
  function UrlToProjectPath(url: string, parsePath: string -> Option<string>): (r: Option<string>)
    ensures r.Some? ==> r.value != ""
    ensures !StartsWith(url, "git@") && parsePath(url).None? ==> r.None?
  {
    var path :=
      if StartsWith(url, "git@") && Contains(url, ":") then Some(url[Find(url, ":") + 1..])
      else match parsePath(url)
        case None => None
        case Some(p) => Some(LStripChars(p, {'/'}));
    match path
    case None => None
    case Some(p) =>
      var q := if EndsWith(p, ".git") then p[..|p| - 4] else p;
      if q == "" then None else Some(q)
  }

  /** An SSH URL `git@host:group/project.git` names the project `group/project`. */
  lemma SshUrlProjectPath(host: string, project: string, parsePath: string -> Option<string>)
    requires ':' !in host && project != "" && !EndsWith(project, ".git")
    ensures UrlToProjectPath("git@" + host + ":" + project + ".git", parsePath) == Some(project)
  {
    var url := "git@" + host + ":" + project + ".git";
    var i := |"git@" + host|;
    assert url[..4] == "git@";
    assert url[i] == ':' && url[i..i + 1] == ":";
    forall j | 0 <= j < i
      ensures !OccursAt(url, ":", j)
    {
      assert url[j..j + 1][0] == url[j];
      if j >= 4 {
        assert url[j] == host[j - 4];
      }
    }
    FindFromAt(url, ":", 0, i);
    var p := url[i + 1..];
    assert p == project + ".git";
    assert p[|p| - 4..] == ".git";
    assert p[..|p| - 4] == project;
  }

  /**
   * Any other URL whose path is leading '/'s, then the project, then an
   * optional ".git" names that project.
   */
  lemma UrlPathProjectPath(url: string, lead: string, project: string, suffix: string,
                           parsePath: string -> Option<string>)
    requires !(StartsWith(url, "git@") && Contains(url, ":"))
    requires parsePath(url) == Some(lead + project + suffix)
    requires forall i :: 0 <= i < |lead| ==> lead[i] == '/'
    requires suffix == "" || suffix == ".git"
    requires project != "" && project[0] != '/' && !EndsWith(project, ".git")
    ensures UrlToProjectPath(url, parsePath) == Some(project)
  {
    assert lead + project + suffix == lead + (project + suffix);
    LStripPrefix(lead, project + suffix, {'/'});
    var p := project + suffix;
    if suffix == ".git" {
      assert p[|p| - 4..] == ".git";
      assert p[..|p| - 4] == project;
    } else {
      assert p == project;
    }
  }

  // ----- submodule commits in a diff -----

  const SubprojectCommit := "Subproject commit "

  predicate IsHex(c: char) { '0' <= c <= '9' || 'a' <= c <= 'f' }

  /** The length of the run of lower-case hex digits at the start of `s`. */
  function HexRun(s: string): (r: nat)
    ensures r <= |s|
    ensures forall j :: 0 <= j < r ==> IsHex(s[j])
    ensures r < |s| ==> !IsHex(s[r])
  {
    if s != [] && IsHex(s[0]) then 1 + HexRun(s[1..]) else 0
  }

  /** The sha a line gives: `<sign>Subproject commit ` then 7 to 40 hex digits (as many as there are, up to 40). */
  function LineSha(line: string, sign: char): Option<string>
  {
    var prefix := [sign] + SubprojectCommit;
    if !StartsWith(line, prefix) then None
    else
      var run := HexRun(line[|prefix|..]);
      if run < 7 then None else Some(line[|prefix|..|prefix| + Min(run, 40)])
  }

  /**
   * `re.search(r"^<sign>Subproject commit ([0-9a-f]{7,40})", patch, re.M)`:
   * the first line, from index `k` of the lines, that gives a sha.
   */
  function FirstSha(lines: seq<string>, k: nat, sign: char): Option<string>
    requires k <= |lines|
    decreases |lines| - k
  {
    if k == |lines| then None
    else if LineSha(lines[k], sign).Some? then LineSha(lines[k], sign)
    else FirstSha(lines, k + 1, sign)
  }

  function PatchSha(patch: string, sign: char): Option<string>
  {
    FirstSha(Split(patch, "\n"), 0, sign)
  }

  /** A found sha has 7 to 40 lower-case hex digits. */
  lemma {:induction false} FirstShaShape(lines: seq<string>, k: nat, sign: char)
    requires k <= |lines|
    ensures var r := FirstSha(lines, k, sign);
            r.Some? ==> 7 <= |r.value| <= 40 && forall j :: 0 <= j < |r.value| ==> IsHex(r.value[j])
    decreases |lines| - k
  {
    if k < |lines| && LineSha(lines[k], sign).None? {
      FirstShaShape(lines, k + 1, sign);
    } else if k < |lines| {
      var prefix := [sign] + SubprojectCommit;
      var run := HexRun(lines[k][|prefix|..]);
      var r := LineSha(lines[k], sign).value;
      forall j | 0 <= j < |r|
        ensures IsHex(r[j])
      {
        assert r[j] == lines[k][|prefix|..][j];
      }
    }
  }

  lemma {:induction false} HexRunAll(s: string)
    requires forall j :: 0 <= j < |s| ==> IsHex(s[j])
    ensures HexRun(s) == |s|
  {
    if s != [] {
      HexRunAll(s[1..]);
    }
  }

  /** A `Subproject commit` line gives its sha to its own sign and none to another. */
  lemma LineShaOf(sign: char, other: char, sha: string)
    requires 7 <= |sha| <= 40
    requires forall j :: 0 <= j < |sha| ==> IsHex(sha[j])
    requires other != sign
    ensures LineSha([sign] + SubprojectCommit + sha, sign) == Some(sha)
    ensures LineSha([sign] + SubprojectCommit + sha, other).None?
  {
    var prefix := [sign] + SubprojectCommit;
    var line := prefix + sha;
    assert line[..|prefix|] == prefix && line[|prefix|..] == sha;
    assert line[0] != other;
    HexRunAll(sha);
    assert line[|prefix|..|prefix| + |sha|] == sha;
  }

  /** A `Subproject commit` line holds no line break. */
  lemma NoBreakLine(sign: char, sha: string)
    requires sign != '\n'
    requires forall j :: 0 <= j < |sha| ==> IsHex(sha[j])
    ensures Free([sign] + SubprojectCommit + sha, '\n')
  {
    var line := [sign] + SubprojectCommit + sha;
    forall j | 0 <= j < |line|
      ensures line[j] != '\n'
    {
      if j >= 1 + |SubprojectCommit| {
        assert line[j] == sha[j - 1 - |SubprojectCommit|];
      }
    }
  }

  /** The shas of a submodule bump: the old one on the '-' line, the new one on the '+' line. */
  lemma SubmoduleBumpShas(oldSha: string, newSha: string, minus: char, plus: char)
    requires minus == '-' && plus == '+'
    requires 7 <= |oldSha| <= 40 && 7 <= |newSha| <= 40
    requires forall j :: 0 <= j < |oldSha| ==> IsHex(oldSha[j])
    requires forall j :: 0 <= j < |newSha| ==> IsHex(newSha[j])
    ensures var patch := [minus] + SubprojectCommit + oldSha + "\n" + [plus] + SubprojectCommit + newSha;
            PatchSha(patch, minus) == Some(oldSha) && PatchSha(patch, plus) == Some(newSha)
  {
    var l1 := [minus] + SubprojectCommit + oldSha;
    var l2 := [plus] + SubprojectCommit + newSha;
    var patch := [minus] + SubprojectCommit + oldSha + "\n" + [plus] + SubprojectCommit + newSha;
    assert Join("\n", [l2]) == l2;
    JoinCons("\n", l1, [l2]);
    assert patch == Join("\n", [l1, l2]);
    NoBreakLine(minus, oldSha);
    NoBreakLine(plus, newSha);
    JoinSplit('\n', [l1, l2]);
    var lines := Split(patch, "\n");
    assert lines == [l1, l2];
    LineShaOf(minus, plus, oldSha);
    LineShaOf(plus, minus, newSha);
    assert FirstSha(lines, 0, minus) == Some(oldSha);
    assert FirstSha(lines, 1, plus) == Some(newSha);
  }

  // ----- expansion -----

  /** The entry appended for one change of submodule `subPath`. */
  function SubEntry(subPath: string, sd: SubDiff): Change
  {
    var sdOld := Or(sd.oldPath, sd.aPath);
    var sdNew := Or(Or(sd.newPath, sd.bPath), sdOld);
    Change(if sdOld != "" then subPath + "/" + sdOld else subPath,
           if sdNew != "" then subPath + "/" + sdNew else subPath,
           sd.diff, sd.newFile, sd.deletedFile, sd.renamedFile)
  }

  function SubEntries(subPath: string, sds: seq<SubDiff>): (r: seq<Change>)
    ensures |r| == |sds|
    ensures forall k :: 0 <= k < |sds| ==> r[k] == SubEntry(subPath, sds[k])
  {
    if sds == [] then [] else [SubEntry(subPath, sds[0])] + SubEntries(subPath, sds[1..])
  }

  /** What a change needs for expansion: its two shas, its submodule's path and its project path. */
  datatype Target = Target(subPath: string, projPath: string, oldSha: string, newSha: string)

  /** The submodule a change updates, when it names one the expansion can follow. */
  function TargetOf(ch: Change, gitmodules: map<string, string>, parsePath: string -> Option<string>): Option<Target>
  {
    if !Contains(ch.diff, "Subproject commit") then None
    else
      var oldSha := PatchSha(ch.diff, '-');
      var newSha := PatchSha(ch.diff, '+');
      if oldSha.None? || newSha.None? then None
      else
        var subPath := Or(ch.newPath, ch.oldPath);
        if subPath !in gitmodules || gitmodules[subPath] == "" then None
        else match UrlToProjectPath(gitmodules[subPath], parsePath)
          case None => None
          case Some(projPath) => Some(Target(subPath, projPath, oldSha.value, newSha.value))
  }

  type Key = (string, string, string)

  /** The comparison's diffs, `[]` when it fails. */
  function Fetched(r: Option<seq<SubDiff>>): seq<SubDiff>
  {
    if r.Some? then r.value else []
  }

  /** The entries appended for one change: its submodule's changes, if it names one. */
  function EntriesOf(ch: Change, gitmodules: map<string, string>, parsePath: string -> Option<string>,
                     compare: Key -> Option<seq<SubDiff>>): seq<Change>
  {
    match TargetOf(ch, gitmodules, parsePath)
    case None => []
    case Some(t) => SubEntries(t.subPath, Fetched(compare((t.projPath, t.oldSha, t.newSha))))
  }

  /** The entries appended for the changes `changes[..n]`. */
  function Appended(changes: seq<Change>, n: nat, gitmodules: map<string, string>,
                    parsePath: string -> Option<string>, compare: Key -> Option<seq<SubDiff>>): seq<Change>
    requires n <= |changes|
  {
    if n == 0 then []
    else Appended(changes, n - 1, gitmodules, parsePath, compare) + EntriesOf(changes[n - 1], gitmodules, parsePath, compare)
  }

  lemma AppendedStep(changes: seq<Change>, n: nat, gitmodules: map<string, string>,
                     parsePath: string -> Option<string>, compare: Key -> Option<seq<SubDiff>>)
    requires n < |changes|
    ensures changes + Appended(changes, n + 1, gitmodules, parsePath, compare)
         == changes + Appended(changes, n, gitmodules, parsePath, compare)
            + EntriesOf(changes[n], gitmodules, parsePath, compare)
  {
  }

  /** `expand_submodule_changes`: the changes as they were, then the submodules' changes. */
  function Expanded(changes: seq<Change>, enabled: bool, gitmodules: map<string, string>,
                    parsePath: string -> Option<string>, compare: Key -> Option<seq<SubDiff>>): seq<Change>
  {
    if !enabled || |gitmodules| == 0 then changes
    else changes + Appended(changes, |changes|, gitmodules, parsePath, compare)
  }

  /**
   * The handler with its comparison cache. `compare` stands for resolving
   * the project and comparing the two commits on the server (`None` when
   * either fails).
   */
  class SubmoduleHandler {
    const compare: Key -> Option<seq<SubDiff>>
    var cache: map<Key, seq<SubDiff>>

    /** Every cached answer is the server's. */
    ghost predicate Valid()
      reads this
    {
      forall key :: key in cache ==> cache[key] == Fetched(compare(key))
    }

    constructor(compare: Key -> Option<seq<SubDiff>>)
      ensures Valid() && this.compare == compare && cache == map[]
    {
      this.compare := compare;
      cache := map[];
    }

    /** `_compare_submodule`: memoised on the key; a failure is cached as `[]`. */
    method CompareSubmodule(projPath: string, oldSha: string, newSha: string) returns (diffs: seq<SubDiff>)
      requires Valid()
      modifies this
      ensures Valid()
      ensures diffs == Fetched(compare((projPath, oldSha, newSha)))
      ensures cache == old(cache)[(projPath, oldSha, newSha) := diffs]
    {
      var key := (projPath, oldSha, newSha);
      if key in cache {
        diffs := cache[key];
        return;
      }
      var fetched := compare(key);
      if fetched.None? {
        cache := cache[key := []];
        return [];
      }
      diffs := fetched.value;
      cache := cache[key := diffs];
    }

    method ExpandSubmoduleChanges(changes: seq<Change>, enabled: bool, gitmodules: map<string, string>,
                                  parsePath: string -> Option<string>)
      returns (out: seq<Change>)
      requires Valid()
      modifies this
      ensures Valid()
      ensures out == Expanded(changes, enabled, gitmodules, parsePath, compare)
    {
      if !enabled {
        return changes;
      }
      if |gitmodules| == 0 {
        return changes;
      }
      out := changes;
      for n := 0 to |changes|
        invariant Valid()
        invariant out == changes + Appended(changes, n, gitmodules, parsePath, compare)
      {
        var entries := ExpandOne(changes[n], gitmodules, parsePath);
        AppendedStep(changes, n, gitmodules, parsePath, compare);
        out := out + entries;
      }
    }

    /** One pass of the loop: the entries of the change's submodule, if it names one. */
    method ExpandOne(ch: Change, gitmodules: map<string, string>, parsePath: string -> Option<string>)
      returns (entries: seq<Change>)
      requires Valid()
      modifies this
      ensures Valid()
      ensures entries == EntriesOf(ch, gitmodules, parsePath, compare)
    {
      var target := Target1(ch, gitmodules, parsePath);
      if target.None? {
        return [];
      }
      var t := target.value;
      var subDiffs := CompareSubmodule(t.projPath, t.oldSha, t.newSha);
      entries := AppendEntries(t.subPath, subDiffs);
    }
  }

  /** The checks of the loop body, in the order the handler makes them. */
  method Target1(ch: Change, gitmodules: map<string, string>, parsePath: string -> Option<string>)
    returns (r: Option<Target>)
    ensures r == TargetOf(ch, gitmodules, parsePath)
  {
    var patch := ch.diff;
    if !Contains(patch, "Subproject commit") {
      return None;
    }
    var oldM := PatchSha(patch, '-');
    var newM := PatchSha(patch, '+');
    if oldM.None? || newM.None? {
      return None;
    }
    var subPath := Or(ch.newPath, ch.oldPath);
    if subPath !in gitmodules || gitmodules[subPath] == "" {
      return None;
    }
    var projPath := UrlToProjectPath(gitmodules[subPath], parsePath);
    if projPath.None? {
      return None;
    }
    return Some(Target(subPath, projPath.value, oldM.value, newM.value));
  }

  /** The inner loop: one entry per diff of the submodule, prefixed with its path. */
  method AppendEntries(subPath: string, subDiffs: seq<SubDiff>) returns (entries: seq<Change>)
    ensures entries == SubEntries(subPath, subDiffs)
  {
    entries := [];
    for k := 0 to |subDiffs|
      invariant |entries| == k
      invariant forall j :: 0 <= j < k ==> entries[j] == SubEntry(subPath, subDiffs[j])
    {
      var sd := subDiffs[k];
      var sdOld := Or(sd.oldPath, sd.aPath);
      var sdNew := Or(Or(sd.newPath, sd.bPath), sdOld);
      entries := entries + [Change(if sdOld != "" then subPath + "/" + sdOld else subPath,
                                   if sdNew != "" then subPath + "/" + sdNew else subPath,
                                   sd.diff, sd.newFile, sd.deletedFile, sd.renamedFile)];
    }
  }

  // ----- properties -----

  /** An appended entry's paths lie inside its submodule's directory (or are the submodule itself). */
  lemma SubEntryInside(subPath: string, sd: SubDiff)
    ensures var e := SubEntry(subPath, sd);
            && (e.oldPath == subPath || StartsWith(e.oldPath, subPath + "/"))
            && (e.newPath == subPath || StartsWith(e.newPath, subPath + "/"))
            && (sd.newPath == "" && sd.bPath == "" ==> e.newPath == e.oldPath)
  {
    var e := SubEntry(subPath, sd);
    if e.oldPath != subPath {
      assert e.oldPath[..|subPath + "/"|] == subPath + "/";
    }
    if e.newPath != subPath {
      assert e.newPath[..|subPath + "/"|] == subPath + "/";
    }
  }

  /** Every appended entry comes from a change that names a submodule with its two shas and a known URL. */
  lemma {:induction false} AppendedFromTargets(changes: seq<Change>, n: nat, gitmodules: map<string, string>,
                                               parsePath: string -> Option<string>,
                                               compare: Key -> Option<seq<SubDiff>>)
    requires n <= |changes|
    ensures forall e :: e in Appended(changes, n, gitmodules, parsePath, compare) ==>
              exists k :: 0 <= k < n && TargetOf(changes[k], gitmodules, parsePath).Some?
                          && e in EntriesOf(changes[k], gitmodules, parsePath, compare)
  {
    if n > 0 {
      AppendedFromTargets(changes, n - 1, gitmodules, parsePath, compare);
      var prev := Appended(changes, n - 1, gitmodules, parsePath, compare);
      var last := EntriesOf(changes[n - 1], gitmodules, parsePath, compare);
      assert Appended(changes, n, gitmodules, parsePath, compare) == prev + last;
      forall e | e in prev + last
        ensures exists k :: 0 <= k < n && TargetOf(changes[k], gitmodules, parsePath).Some?
                            && e in EntriesOf(changes[k], gitmodules, parsePath, compare)
      {
        if e !in prev {
          EntriesNeedTarget(changes[n - 1], gitmodules, parsePath, compare, e);
        }
      }
    }
  }

  /** Only a change with a target has entries. */
  lemma EntriesNeedTarget(ch: Change, gitmodules: map<string, string>, parsePath: string -> Option<string>,
                          compare: Key -> Option<seq<SubDiff>>, e: Change)
    requires e in EntriesOf(ch, gitmodules, parsePath, compare)
    ensures TargetOf(ch, gitmodules, parsePath).Some?
  {
  }

  /** A change whose diff holds no submodule commit adds nothing. */
  lemma NoSubprojectNoEntries(changes: seq<Change>, gitmodules: map<string, string>,
                              parsePath: string -> Option<string>, compare: Key -> Option<seq<SubDiff>>)
    requires forall k :: 0 <= k < |changes| ==> !Contains(changes[k].diff, "Subproject commit")
    ensures Expanded(changes, true, gitmodules, parsePath, compare) == changes
  {
    if |gitmodules| != 0 {
      NoTargetsNothingAppended(changes, |changes|, gitmodules, parsePath, compare);
    }
  }

  lemma {:induction false} NoTargetsNothingAppended(changes: seq<Change>, n: nat, gitmodules: map<string, string>,
                                                    parsePath: string -> Option<string>,
                                                    compare: Key -> Option<seq<SubDiff>>)
    requires n <= |changes|
    requires forall k :: 0 <= k < n ==> !Contains(changes[k].diff, "Subproject commit")
    ensures Appended(changes, n, gitmodules, parsePath, compare) == []
  {
    if n > 0 {
      NoTargetsNothingAppended(changes, n - 1, gitmodules, parsePath, compare);
      assert TargetOf(changes[n - 1], gitmodules, parsePath) == None;
    }
  }
}
