/**
 * The parts of a URL the parsers look at: Python's `urlparse` is taken as a
 * given function from the URL to its network location and its path.
 */
module Urls {
  import opened Text

  datatype ParsedUrl = ParsedUrl(netloc: string, path: string)

  /** `path.strip('/').split('/')`. */
  function PathParts(path: string): (r: seq<string>)
    ensures |r| >= 1
  {
    Split(StripChars(path, {'/'}), "/")
  }

  /** Segments that can stand between slashes: none holds a '/', the outer two are not empty. */
  predicate Segments(segs: seq<string>)
  {
    && segs != []
    && (forall k :: 0 <= k < |segs| ==> Free(segs[k], '/'))
    && segs[0] != [] && segs[|segs| - 1] != []
  }

  /** A path made of segments splits back into them, whatever slash it begins with. */
  lemma PathPartsOf(segs: seq<string>)
    requires Segments(segs)
    ensures PathParts("/" + Join("/", segs)) == segs
  {
    var j := Join("/", segs);
    JoinEnds("/", segs);
    assert j[0] == segs[0][0] && j[|j| - 1] == segs[|segs| - 1][|segs[|segs| - 1]| - 1];
    assert ("/" + j)[1..] == j;
    assert LStripChars("/" + j, {'/'}) == j;
    assert StripChars("/" + j, {'/'}) == j;
    JoinSplit('/', segs);
  }

  /** The first index of `x` in `xs`, or |xs|. */
  function IndexOf(xs: seq<string>, x: string): (r: nat)
    ensures r <= |xs|
    ensures r < |xs| ==> xs[r] == x
    ensures forall k :: 0 <= k < r ==> xs[k] != x
  {
    if xs == [] then 0 else if xs[0] == x then 0 else 1 + IndexOf(xs[1..], x)
  }
}

/** `GithubURLParser`: a pull request or issue URL to its repository and number. */
module GithubUrls {
  import opened Wrappers
  import opened Text
  import opened Urls

  const NotPrUrl := "The provided URL does not appear to be a GitHub PR URL"
  const NotIssueUrl := "The provided URL does not appear to be a GitHub ISSUE URL"
  const NotPrIssue := "The provided URL does not appear to be a GitHub PR issue"
  const PrNumberNotInt := "Unable to convert PR number to integer"
  const IssueNumberNotInt := "Unable to convert issue number to integer"

  /** The two forms a URL can take: GitHub's API (or an enterprise `/api/v3` server) and the web. */
  predicate ApiForm(url: string, p: ParsedUrl)
  {
    Contains(p.netloc, "api.github.com") || Contains(url, "/api/v3")
  }

  /** The parsed URL, with an enterprise `/api/v3` path infix removed. */
  function Reparsed(url: string, parse: string -> ParsedUrl): ParsedUrl
  {
    var p := parse(url);
    if StartsWith(p.path, "/api/v3") then parse(ReplaceAll(url, "/api/v3", "")) else p
  }

  /**
   * Both parsers: in the API form the path is `repos/<owner>/<repo>/<api>/<n>`,
   * on the web `<owner>/<repo>/<web>/<n>`; anything else raises ValueError.
   */
  function ParseNumbered(url: string, parse: string -> ParsedUrl, api: string, web: string,
                         apiShape: string, webShape: string, notInt: string): (r: Result<(string, int)>)
    ensures r.Err? ==> r.error.ValueError?
  {
    var p := Reparsed(url, parse);
    var parts := PathParts(p.path);
    if ApiForm(url, p) then
      if |parts| < 5 || parts[3] != api then Err(ValueError(apiShape))
      else match ParseInt(parts[4])
        case None => Err(ValueError(notInt))
        case Some(n) => Ok((Join("/", parts[1..3]), n))
    else if |parts| < 4 || parts[2] != web then Err(ValueError(webShape))
    else match ParseInt(parts[3])
      case None => Err(ValueError(notInt))
      case Some(n) => Ok((Join("/", parts[..2]), n))
  }

  /** `parse_pr_url`. */
  function ParsePrUrl(url: string, parse: string -> ParsedUrl): (r: Result<(string, int)>)
    ensures r.Err? ==> r.error.ValueError?
  {
    ParseNumbered(url, parse, "pulls", "pull", NotPrUrl, NotPrUrl, PrNumberNotInt)
  }

  /** `parse_issue_url`. */
  function ParseIssueUrl(url: string, parse: string -> ParsedUrl): (r: Result<(string, int)>)
    ensures r.Err? ==> r.error.ValueError?
  {
    ParseNumbered(url, parse, "issues", "issues", NotIssueUrl, NotPrIssue, IssueNumberNotInt)
  }

  /**
   * A web URL accepts exactly the paths whose third segment is the kind and
   * whose fourth is an integer; the repository is the first two segments.
   */
  lemma WebShape(url: string, parse: string -> ParsedUrl, api: string, web: string,
                 apiShape: string, webShape: string, notInt: string)
    requires !ApiForm(url, Reparsed(url, parse))
    ensures var parts := PathParts(Reparsed(url, parse).path);
            var r := ParseNumbered(url, parse, api, web, apiShape, webShape, notInt);
            && (r.Ok? <==> |parts| >= 4 && parts[2] == web && ParseInt(parts[3]).Some?)
            && (r.Ok? ==> r.value == (parts[0] + "/" + parts[1], ParseInt(parts[3]).value))
            && ((|parts| < 4 || parts[2] != web) ==> r == Err(ValueError(webShape)))
  {
    var parts := PathParts(Reparsed(url, parse).path);
    if |parts| >= 4 {
      assert parts[..2] == [parts[0], parts[1]];
      JoinCons("/", parts[0], [parts[1]]);
    }
  }

  /** An API URL accepts exactly `<any>/<owner>/<repo>/<kind>/<integer>/...`. */
  lemma ApiShape(url: string, parse: string -> ParsedUrl, api: string, web: string,
                 apiShape: string, webShape: string, notInt: string)
    requires ApiForm(url, Reparsed(url, parse))
    ensures var parts := PathParts(Reparsed(url, parse).path);
            var r := ParseNumbered(url, parse, api, web, apiShape, webShape, notInt);
            && (r.Ok? <==> |parts| >= 5 && parts[3] == api && ParseInt(parts[4]).Some?)
            && (r.Ok? ==> r.value == (parts[1] + "/" + parts[2], ParseInt(parts[4]).value))
            && ((|parts| < 5 || parts[3] != api) ==> r == Err(ValueError(apiShape)))
  {
    var parts := PathParts(Reparsed(url, parse).path);
    if |parts| >= 5 {
      assert parts[1..3] == [parts[1], parts[2]];
      JoinCons("/", parts[1], [parts[2]]);
    }
  }

  /** Round trip: the web URL of pull request `n` of `owner/repo` parses back to them. */
  lemma WebPrUrlRoundTrip(url: string, parse: string -> ParsedUrl, owner: string, repo: string, n: nat)
    requires Segments([owner, repo, "pull", NatToString(n)])
    requires parse(url) == ParsedUrl(parse(url).netloc, "/" + Join("/", [owner, repo, "pull", NatToString(n)]))
    requires !Contains(parse(url).netloc, "api.github.com") && !Contains(url, "/api/v3")
    ensures ParsePrUrl(url, parse) == Ok((owner + "/" + repo, n))
  {
    ReplaceAbsent(url, "/api/v3", "");
    assert Reparsed(url, parse) == parse(url);
    PathPartsOf([owner, repo, "pull", NatToString(n)]);
    ParseIntOfNat(n);
    WebShape(url, parse, "pulls", "pull", NotPrUrl, NotPrUrl, PrNumberNotInt);
  }

  /** Round trip: the API URL `/repos/owner/repo/pulls/n` parses back to `owner/repo` and `n`. */
  lemma ApiPrUrlRoundTrip(url: string, parse: string -> ParsedUrl, owner: string, repo: string, n: nat)
    requires Segments(["repos", owner, repo, "pulls", NatToString(n)])
    requires parse(url) == ParsedUrl(parse(url).netloc,
                                     "/" + Join("/", ["repos", owner, repo, "pulls", NatToString(n)]))
    requires Contains(parse(url).netloc, "api.github.com") && !Contains(url, "/api/v3")
    ensures ParsePrUrl(url, parse) == Ok((owner + "/" + repo, n))
  {
    ReplaceAbsent(url, "/api/v3", "");
    assert Reparsed(url, parse) == parse(url);
    PathPartsOf(["repos", owner, repo, "pulls", NatToString(n)]);
    ParseIntOfNat(n);
    ApiShape(url, parse, "pulls", "pull", NotPrUrl, NotPrUrl, PrNumberNotInt);
  }

  /** Round trip for an issue on the web: `owner/repo/issues/n`. */
  lemma WebIssueUrlRoundTrip(url: string, parse: string -> ParsedUrl, owner: string, repo: string, n: nat)
    requires Segments([owner, repo, "issues", NatToString(n)])
    requires parse(url) == ParsedUrl(parse(url).netloc, "/" + Join("/", [owner, repo, "issues", NatToString(n)]))
    requires !Contains(parse(url).netloc, "api.github.com") && !Contains(url, "/api/v3")
    ensures ParseIssueUrl(url, parse) == Ok((owner + "/" + repo, n))
  {
    ReplaceAbsent(url, "/api/v3", "");
    assert Reparsed(url, parse) == parse(url);
    PathPartsOf([owner, repo, "issues", NatToString(n)]);
    ParseIntOfNat(n);
    WebShape(url, parse, "issues", "issues", NotIssueUrl, NotPrIssue, IssueNumberNotInt);
  }

  /** A pull request URL is not an issue URL: the two parsers never both accept a web URL. */
  lemma PrAndIssueExclusive(url: string, parse: string -> ParsedUrl)
    requires !ApiForm(url, Reparsed(url, parse))
    ensures !(ParsePrUrl(url, parse).Ok? && ParseIssueUrl(url, parse).Ok?)
  {
    WebShape(url, parse, "pulls", "pull", NotPrUrl, NotPrUrl, PrNumberNotInt);
    WebShape(url, parse, "issues", "issues", NotIssueUrl, NotPrIssue, IssueNumberNotInt);
  }
}

/** `GitLabURLParser`: merge request URLs to project paths and repository URLs. */
module GitlabUrls {
  import opened Wrappers
  import opened Text
  import opened Urls

  const NotMergeRequestUrl := "The provided URL does not appear to be a GitLab merge request URL"
  const NoMergeRequestId := "The provided URL does not contain a merge request ID"
  const IdNotInt := "Unable to convert merge request ID to integer"
  const RefTypeSuffix := "?ref_type=heads"

  /** The project path: the segments before `merge_requests`, without GitLab's trailing `/-` delimiter. */
  function ProjectPath(parts: seq<string>, i: nat): string
    requires i <= |parts|
  {
    var path := Join("/", parts[..i]);
    if EndsWith(path, "/-") then path[..|path| - 2] else path
  }

  /** `_parse_merge_request_url`: the project path and the merge request id. */
  function ParseMergeRequestUrl(url: string, parse: string -> ParsedUrl): (r: Result<(string, int)>)
    ensures r.Err? ==> r.error.ValueError?
    ensures var parts := PathParts(parse(url).path);
            r.Ok? <==> ("merge_requests" in parts
                        && IndexOf(parts, "merge_requests") + 1 < |parts|
                        && ParseInt(parts[IndexOf(parts, "merge_requests") + 1]).Some?)
  {
    var parts := PathParts(parse(url).path);
    if "merge_requests" !in parts then Err(ValueError(NotMergeRequestUrl))
    else
      var i := IndexOf(parts, "merge_requests");
      if |parts| <= i + 1 then Err(ValueError(NoMergeRequestId))
      else match ParseInt(parts[i + 1])
        case None => Err(ValueError(IdNotInt))
        case Some(id) => Ok((ProjectPath(parts, i), id))
  }

  /** Round trip: `/<group>/.../-/merge_requests/<n>` parses back to the group path and `n`. */
  lemma MergeRequestUrlRoundTrip(url: string, parse: string -> ParsedUrl, project: seq<string>, n: nat)
    requires Segments(project + ["-", "merge_requests", NatToString(n)])
    requires project != [] && "merge_requests" !in project
    requires parse(url).path == "/" + Join("/", project + ["-", "merge_requests", NatToString(n)])
    ensures ParseMergeRequestUrl(url, parse) == Ok((Join("/", project), n))
  {
    var segs := project + ["-", "merge_requests", NatToString(n)];
    PathPartsOf(segs);
    var i := |project| + 1;
    assert segs[i] == "merge_requests" && segs[i + 1] == NatToString(n);
    assert forall k :: 0 <= k < i ==> segs[k] != "merge_requests" by {
      forall k | 0 <= k < i
        ensures segs[k] != "merge_requests"
      {
        if k < |project| {
          assert segs[k] == project[k];
        }
      }
    }
    assert IndexOf(segs, "merge_requests") == i;
    assert "merge_requests" in segs;
    ParseIntOfNat(n);
    assert segs[..i] == project + ["-"];
    JoinAppend("/", project, "-");
    var path := Join("/", project) + "/-";
    assert Join("/", segs[..i]) == path;
    assert path[|path| - 2..] == "/-";
    assert path[..|path| - 2] == Join("/", project);
    assert ProjectPath(segs, i) == Join("/", project);
  }

  /**
   * `_get_project_path_from_pr_or_issue_url`: an issue URL is read as the
   * merge request URL it names; "" when there is no `merge_requests`; a
   * malformed merge request URL raises.
   */
  function ProjectPathOf(url: string, parse: string -> ParsedUrl): (r: Result<string>)
    ensures var u := if Contains(url, "issues") then ReplaceAll(url, "issues", "merge_requests") else url;
            && (!Contains(u, "merge_requests") ==> r == Ok(""))
            && (Contains(u, "merge_requests") && ParseMergeRequestUrl(u, parse).Ok? ==>
                  r == Ok(ParseMergeRequestUrl(u, parse).value.0))
            && (Contains(u, "merge_requests") && ParseMergeRequestUrl(u, parse).Err? ==>
                  r == Err(ParseMergeRequestUrl(u, parse).error))
  {
    var u := if Contains(url, "issues") then ReplaceAll(url, "issues", "merge_requests") else url;
    if Contains(u, "merge_requests") then
      match ParseMergeRequestUrl(u, parse)
      case Err(e) => Err(e)
      case Ok((path, _)) => Ok(path)
    else Ok("")
  }

  /**
   * `get_git_repo_url`: the URL up to the end of the first occurrence of
   * the project path, plus `.git`; "" when the path is empty or not in the URL.
   */
  function GitRepoUrl(url: string, parse: string -> ParsedUrl): (r: Result<string>)
    ensures ProjectPathOf(url, parse).Err? <==> r.Err?
    ensures r.Ok? ==> r.value == RepoUrlAt(url, ProjectPathOf(url, parse).value)
  {
    match ProjectPathOf(url, parse)
    case Err(e) => Err(e)
    case Ok(repoPath) => Ok(RepoUrlAt(url, repoPath))
  }

  /** `url.split(repoPath)[0] + repoPath + ".git"`, or "" for an empty or absent path. */
  function RepoUrlAt(url: string, repoPath: string): (r: string)
    ensures r == "" <==> repoPath == "" || !Contains(url, repoPath)
    ensures r != "" ==> EndsWith(r, ".git")
    ensures r != "" ==> StartsWith(url, r[..|r| - 4]) && EndsWith(r[..|r| - 4], repoPath)
  {
    if repoPath == "" || !Contains(url, repoPath) then ""
    else
      var i := Find(url, repoPath);
      assert OccursAt(url, repoPath, i);
      assert url[..i] + repoPath == url[..i + |repoPath|];
      var r := url[..i] + repoPath + ".git";
      assert r[..|r| - 4] == url[..i + |repoPath|];
      r
  }

  /**
   * `get_canonical_url_parts`. A missing repository URL (`None` or "") falls
   * back to the merge request URL of the provider and its project's
   * default branch, `None` when fetching the project fails; a branch the
   * caller did not give renders as Python's `None`.
   */
  function CanonicalUrlParts(repoGitUrl: string, desiredBranch: Option<string>, prUrl: string, gitlabUrl: string,
                             defaultBranch: Option<string>, parse: string -> ParsedUrl)
    : (r: Result<(string, string)>)
    ensures r.Ok? ==> r.value == ("", "") || r.value.1 == RefTypeSuffix
    ensures repoGitUrl == "" && prUrl == "" ==> r == Ok(("", ""))
    ensures repoGitUrl != "" ==>
              r.Ok? && StartsWith(r.value.0, gitlabUrl + "/")
              && Contains(r.value.0, "/-/blob/")
  {
    if repoGitUrl == "" && prUrl == "" then Ok(("", ""))
    else if repoGitUrl == "" then
      match ProjectPathOf(prUrl, parse)
      case Err(e) => Err(e)
      case Ok(repoPath) =>
        match defaultBranch
        case None => Ok(("", ""))
        case Some(branch) => Ok((BlobPrefix(gitlabUrl, repoPath, branch), RefTypeSuffix))
    else
      var pieces := Split(Split(repoGitUrl, ".git")[0], ".com/");
      var repoPath := pieces[|pieces| - 1];
      var branch := match desiredBranch case Some(b) => b case None => "None";
      Ok((BlobPrefix(gitlabUrl, repoPath, branch), RefTypeSuffix))
  }

  /** `{gitlab_url}/{repo_path}/-/blob/{branch}`, which holds `/-/blob/` after the host. */
  function BlobPrefix(gitlabUrl: string, repoPath: string, branch: string): (r: string)
    ensures StartsWith(r, gitlabUrl + "/") && Contains(r, "/-/blob/")
  {
    var r := gitlabUrl + "/" + repoPath + "/-/blob/" + branch;
    assert r[..|gitlabUrl + "/"|] == gitlabUrl + "/";
    assert OccursAt(r, "/-/blob/", |gitlabUrl| + 1 + |repoPath|);
    ContainsIff(r, "/-/blob/");
    r
  }
}
