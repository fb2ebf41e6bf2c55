# pr-agent diff pipeline and formatters, modelled in Dafny

pr-agent turns a pull request into prompts for a language model and turns the model's answers back into review comments.
This project models the deterministic core of that work. Every operation is modelled as the source writes it, and the contracts state what the code promises.

- **Hunk engine.** The unified-diff hunk header `@@ -l[,s] +l[,s] @@ text`, as in the `diff -u` output format of the POSIX.1-2008 `diff` utility. Covered:
  - widening valid hunks with context clamped to the original file (`PatchProcessor`, both variants);
  - dropping deletion-only hunks and deleted files;
  - the numbered `__new hunk__` / `__old hunk__` dual view;
  - extracting a line range from a patch.
- **Token-budget packers.** `pr_generate_extended_diff`, the compressed multi-pass diff, `generate_full_patch`, the added/modified/deleted trailer of `get_pr_diff`, the chunker of `get_pr_multi_diffs` and the model fallback. Token counting and the model limit are parameters.
- **Line resolvers.** `find_line_number_of_relevant_line_in_file`, GitLab's `find_in_file` and `remove_line_numbers`.
- **Limits.** `clip_tokens` and `get_max_tokens`.
- **Small cores.**
  - the GitHub and GitLab URL parsers and the submodule expansion;
  - SEARCH/REPLACE merge-diff application and the code-agent tool registry;
  - inline-comment creation and repair;
  - filtering, ranking and publishing of code suggestions;
  - the markdown renderers of reviews, tickets, to-do items and suggestions.

Code that loops and updates state is modelled as methods with loop invariants. Each method is proved equal to a specification function, and the properties are lemmas about that function. Objects whose fields change in place are classes with `modifies` frames: `FilePatchInfo`, the patch processor, the GitLab provider's caches, the tool registry and the review dictionary `convert_to_markdown_v2` pops from.
Python failures (`ValueError`, `AttributeError`, `NameError`, ...) are the `Err` side of a `Result`.

## Model

| member | source | states |
|---|---|---|
| HunkHeaders.MatchHeader | pr_agent/algo/git_patch_processing.py:80 | a line the hunk-header pattern accepts starts with "@@ -" |
| HunkHeaders.HeaderStartsWithAt | pr_agent/algo/git_patch_processing.py:80 | every accepted header starts with "@@", so a line without it is never a header |
| HunkHeaders.ExtractHunkHeaders | pr_agent/algo/git_patch_processing.py:220-232 | starts and section are the matched groups; a missing count becomes 0; all four numbers are non-negative |
| HunkHeaders.RenderThenMatch | pr_agent/algo/git_patch_processing.py:80 | matching a rendered `@@ -s1,n1 +s2,n2 @@ section` header gives back exactly its four numbers and its section |
| HunkHeaders.OmittedNewCountIsZero | pr_agent/algo/git_patch_processing.py:220-232 | a header whose new range has no count, `@@ -s1,n1 +s2 @@ h`, is read with new size 0, not 1 |
| PrTypes.Value | pr_agent/algo/types.py:8-13 | each edit type's enum value lies between 1 and 5 |
| PrTypes.EditTypeValuesDistinct | pr_agent/algo/types.py:8-13 | two edit types have the same value exactly when they are the same type |
| PrTypes.FilePatchInfo.constructor | pr_agent/algo/types.py:16-29 | the four given fields are stored; tokens and line counts start at -1, the edit type at UNKNOWN, the optional fields absent |
| PrTypes.LineRange | pr_agent/algo/types.py:31-35 | the range keeps its two lines and both columns default to -1 |
| PrTypes.ModelTypeValuesDistinct | pr_agent/algo/types.py:38-41 | the three model types have pairwise different values |
| Tokens.GetMaxTokens | pr_agent/algo/utils.py:221-242 | an error exactly when the model is unknown and no positive custom limit is set; otherwise the table or custom limit, lowered to a positive `max_model_tokens` when that is smaller |
| Tokens.GetMaxTokensCap | pr_agent/algo/utils.py:240-241 | without a cap the table value comes back; a cap at or below the table value wins |
| Tokens.BeforeLastSpec | pr_agent/algo/utils.py:331 | `rsplit('\n', 1)[0]` is a prefix that stops at the last newline, or the whole text when there is none |
| Tokens.KeptCharsBound | pr_agent/algo/utils.py:322-325 | for a count above the budget the number of characters kept is below the text length |
| Tokens.ClipTokens | pr_agent/algo/utils.py:310-338 | unchanged when empty or within budget; "" for a negative budget; otherwise a proper prefix of the text (or "") with the truncation note appended when asked |
| Tokens.ClipToZero | pr_agent/algo/utils.py:322-336 | a zero budget clips any over-budget text to "" |
| Tokens.ClipDeletesLastLine | pr_agent/algo/utils.py:329-333 | with `delete_last_line` the kept part ends just before the last newline of the first n characters, or is all n when they hold none |
| TextUtils.UniqueStrings | pr_agent/algo/utils.py:62-72 | the loop's output is the list of first occurrences of the input, in input order |
| TextUtils.FirstOccurrencesSpec | pr_agent/algo/utils.py:62-72 | the de-duplicated list has no duplicates and holds exactly the items of the input |
| TextUtils.FirstOccurrencesOfDistinct | pr_agent/algo/utils.py:62-72 | a list without duplicates comes back unchanged |
| TextUtils.UniqueStringsIdempotent | pr_agent/algo/utils.py:62-72 | de-duplicating twice gives the same as once |
| TextUtils.FixKeyValue | pr_agent/algo/utils.py:158-161 | the key is stripped and upper-cased, the value stripped |
| TextUtils.UpdateSettingsFromArgs | pr_agent/algo/utils.py:122-155 | the settings made and the arguments passed on are those of the per-argument rule, in argument order; together they account for every argument |
| TextUtils.PlainArgPassesOn | pr_agent/algo/utils.py:153-154 | an argument not starting with "--" is passed on, stripped |
| TextUtils.OverridesConsumed | pr_agent/algo/utils.py:142-152 | a "--key=value" argument is consumed as a setting, so fewer arguments are passed on than given |
| TextUtils.UserLabelsOfMembers | pr_agent/algo/utils.py:196-218 | a label is kept exactly when it is in the input, is not a default label in any case, and is not a custom label while those are enabled |
| TextUtils.UserLabelsOfAllKept | pr_agent/algo/utils.py:196-218 | when every label is the user's, all are kept in order |
| TextUtils.UserLabelsOfIdempotent | pr_agent/algo/utils.py:196-218 | filtering the kept labels a second time keeps them all |
| TextUtils.GetUserLabels | pr_agent/algo/utils.py:196-218 | the result is the in-order filter of the labels (none for a missing list); it holds exactly the user's labels and is no longer than the input |
| TextUtils.ReplaceCodeTags | pr_agent/algo/utils.py:343-351 | the escaped text split on backticks, every odd piece wrapped in `<code>...</code>`, joined |
| TextUtils.NoBackticks | pr_agent/algo/utils.py:343-351 | no backtick is left in the result |
| TextUtils.SetPrString | pr_agent/algo/utils.py:527-528 | the repository name, then '#', then the number's decimal text, which reads back as the number, negative ones included |
| Text.ParseIntOfInt | pr_agent/algo/utils.py:528 | `int(str(i))` is `i` for every integer |
| Sorting.SortByKeySpec | pr_agent/tools/pr_code_suggestions_utils/helpers.py:162-167 | `sorted(..., reverse=True)` by a key: the result is in descending key order, a permutation of the input, and stable among equal keys |
| Urls.PathPartsOf | pr_agent/git_providers/github_utils/url_parser.py:12 | `path.strip('/').split('/')` of a path built from segments gives back those segments |
| GithubUrls.ParsePrUrl | pr_agent/git_providers/github_utils/url_parser.py:6-32 | every failure is a ValueError |
| GithubUrls.ParseIssueUrl | pr_agent/git_providers/github_utils/url_parser.py:35-61 | every failure is a ValueError |
| GithubUrls.WebShape | pr_agent/git_providers/github_utils/url_parser.py:23-32 | a web URL is accepted exactly when its third segment is the kind and its fourth an integer; the result is the first two segments and that integer; a bad shape raises the shape error |
| GithubUrls.ApiShape | pr_agent/git_providers/github_utils/url_parser.py:13-21 | an API URL is accepted exactly when its fourth segment is the kind and its fifth an integer; the repository is segments two and three |
| GithubUrls.WebPrUrlRoundTrip | pr_agent/git_providers/github_utils/url_parser.py:23-32 | the web URL of pull request n of owner/repo parses back to ("owner/repo", n) |
| GithubUrls.ApiPrUrlRoundTrip | pr_agent/git_providers/github_utils/url_parser.py:13-21 | the API URL /repos/owner/repo/pulls/n parses back to ("owner/repo", n) |
| GithubUrls.WebIssueUrlRoundTrip | pr_agent/git_providers/github_utils/url_parser.py:52-61 | the web URL of issue n parses back to ("owner/repo", n) |
| GithubUrls.PrAndIssueExclusive | pr_agent/git_providers/github_utils/url_parser.py:14-43 | no URL is accepted both as a pull request and as an issue |
| GitlabUrls.ParseMergeRequestUrl | pr_agent/git_providers/gitlab_utils/url_parser.py:9-32 | accepted exactly when "merge_requests" is a segment followed by an integer segment; failures are ValueError |
| GitlabUrls.MergeRequestUrlRoundTrip | pr_agent/git_providers/gitlab_utils/url_parser.py:9-32 | /group/.../-/merge_requests/n parses back to the group path (the "/-" removed) and n |
| GitlabUrls.ProjectPathOf | pr_agent/git_providers/gitlab_utils/url_parser.py:60-70 | "issues" is read as "merge_requests"; no merge request gives ""; otherwise the parsed project path, or its error |
| GitlabUrls.GitRepoUrl | pr_agent/git_providers/gitlab_utils/url_parser.py:34-40 | fails exactly when the project path lookup fails; otherwise the URL cut after the path plus ".git" |
| GitlabUrls.RepoUrlAt | pr_agent/git_providers/gitlab_utils/url_parser.py:37-40 | "" exactly for an empty or absent path; otherwise a prefix of the URL that ends with the path, then ".git" |
| GitlabUrls.CanonicalUrlParts | pr_agent/git_providers/gitlab_utils/url_parser.py:42-58 | ("", "") when both URLs are missing; otherwise the suffix is "?ref_type=heads" and, for a given repository URL, the prefix is under the GitLab host and holds "/-/blob/" |
| GitlabUrls.BlobPrefix | pr_agent/git_providers/gitlab_utils/url_parser.py:56 | the prefix starts with the host and a slash and holds "/-/blob/" |
| GithubComments.CreateInlineComment | pr_agent/git_providers/github_utils/comment_handler.py:6-18 | fails exactly when the resolver does; empty when the position is -1; otherwise the body is `body[:max_comment_chars]`, the path the stripped file name and the position the resolver's |
| GithubComments.NoFilesNoComment | pr_agent/git_providers/github_utils/comment_handler.py:6-18 | with no diff files no inline comment is made |
| GithubComments.TryFixInvalidInlineComments | pr_agent/git_providers/github_utils/comment_handler.py:20-42 | the loop returns the repaired copies of the comments the repair changes, in input order |
| GithubComments.RepairedShape | pr_agent/git_providers/github_utils/comment_handler.py:29-37 | a repaired comment has no suggestion fence in its body and no start_line/start_side; their values are under line/side; other fields are unchanged |
| GithubComments.UnchangedDropped | pr_agent/git_providers/github_utils/comment_handler.py:38-39 | a comment the repair does not change is not returned |
| GithubComments.FixedCommentsFrom | pr_agent/git_providers/github_utils/comment_handler.py:27-39 | every returned comment is the repair of some input that it differs from; no more are returned than given |
| GithubComments.ChangedReturned | pr_agent/git_providers/github_utils/comment_handler.py:38-39 | every comment the repair changes is returned |
| GithubComments.FixedCommentsAppend | pr_agent/git_providers/github_utils/comment_handler.py:27-39 | the results of two runs of comments concatenate in order |
| LineResolver.ScanPatch | pr_agent/algo/utils.py:397-408 | the loop's answer is the walk's answer; when nothing is hit, the counters it ends with are those of the whole patch |
| LineResolver.ScanFromFound | pr_agent/algo/utils.py:374-388 | an answer is the first line that is a hit, with the line number the counters give there |
| LineResolver.ScanFromNone | pr_agent/algo/utils.py:374-388 | no answer means every line was walked and none was a hit |
| LineResolver.ReverseFindsFirst | pr_agent/algo/utils.py:373-388 | absolute-to-relative lookup gives the first line whose `start2 + delta - 1` is the target, or none when no line has it |
| LineResolver.ForwardFindsFirst | pr_agent/algo/utils.py:397-408 | text lookup gives the first line that holds the text and is not a deletion, with its line number |
| LineResolver.HeaderLineNumber | pr_agent/algo/utils.py:376-384 | a header line's own number is `start2 - 1` |
| LineResolver.Resolve | pr_agent/algo/utils.py:362-365 | no diff files give (-1, the given absolute position or -1) |
| LineResolver.NoSuchFile | pr_agent/algo/utils.py:367-368 | files whose names do not match leave the state as it was |
| LineResolver.NoSuchFileResolve | pr_agent/algo/utils.py:367-426 | when no file name matches the answer is (-1, the given absolute position or -1) |
| LineResolver.RetryOnlyWhenMissing | pr_agent/algo/utils.py:391-410 | the '+'-stripped retry runs only when the first walk found nothing and the query starts with '+' |
| LineResolver.RetryFindsFirst | pr_agent/algo/utils.py:410-424 | the retry gives the first non-deletion line holding the stripped text, numbered from the counters the first walk ended with |
| LineResolver.FindLineNumberOfRelevantLineInFile | pr_agent/algo/utils.py:354-426 | the loop over the files returns what Resolve gives for the files' names and patches |
| LineResolver.ResolveInFile | pr_agent/algo/utils.py:368-424 | the body for one matching file does what FileStep says |
| MergeDiff.ReplaceFirst | pr_agent/tools/code_agent/diff_utils.py:27 | `replace(search, replace, 1)` swaps the first occurrence of the search text and keeps everything around it |
| MergeDiff.ApplyGitMergeDiff | pr_agent/tools/code_agent/diff_utils.py:3-39 | the loop over the matched blocks gives MergeResult: each block applied in turn, a missing search text a ValueError, markers without a block the format error |
| MergeDiff.NoMarkersUnchanged | pr_agent/tools/code_agent/diff_utils.py:34-39 | a diff without any opening marker leaves the content unchanged |
| MergeDiff.ApplyBlocksAppend | pr_agent/tools/code_agent/diff_utils.py:21-32 | blocks apply one after another: the first run's result is where the second starts, and an error stops everything |
| MergeDiff.SingleBlock | pr_agent/tools/code_agent/diff_utils.py:13-16 | the pattern reads `<<<<<<< SEARCH\n s \n=======\n r \n>>>>>>> REPLACE` back as the one block (s, r) when s has no '=' and r no '>' |
| MergeDiff.SepAfterSearch | pr_agent/tools/code_agent/diff_utils.py:14 | the lazy first group ends at the separator right after the search text |
| MergeDiff.CloseAfterReplace | pr_agent/tools/code_agent/diff_utils.py:14 | the lazy second group ends at the closing marker right after the replacement |
| MergeDiff.BlocksUnfold | pr_agent/tools/code_agent/diff_utils.py:21-24 | a complete block found from a position is followed by the blocks after its closing marker |
| MergeDiff.SingleBlockApplied | pr_agent/tools/code_agent/diff_utils.py:3-39 | a one-block diff applied to `pre + search + post`, with no earlier occurrence, gives `pre + replace + post` |
| MergeDiff.ReplaceMiddleLine | pr_agent/tools/code_agent/diff_utils.py:3-39 | replacing "line2" in "line1\nline2\nline3" gives "line1\nline2_modified\nline3" |
| Tools.DefinitionLines | pr_agent/tools/code_agent/tool_registry.py:15-19 | one line per tool, "- `name`: description", in the dictionary's order |
| Tools.ToolRegistry.constructor | pr_agent/tools/code_agent/tool_registry.py:5-7 | a new registry has no tools |
| Tools.ToolRegistry.RegisterTool | pr_agent/tools/code_agent/tool_registry.py:9-13 | the name maps to the new description and function; a new name goes last, a known one keeps its place |
| Tools.ToolRegistry.GetToolDefinitions | pr_agent/tools/code_agent/tool_registry.py:15-19 | the definition lines joined with newlines |
| Tools.ToolRegistry.Execute | pr_agent/tools/code_agent/tool_registry.py:21-28 | a known action's result or its error message; an unknown action names itself |
| Tools.ReRegisterKeepsPlace | pr_agent/tools/code_agent/tool_registry.py:9-19 | registering a known name again changes only that tool's line, in place |
| Tools.UnknownAction | pr_agent/tools/code_agent/tool_registry.py:28 | an unknown action returns "Unknown action: " and its name |
| Compliance.TicketLevel | pr_agent/algo/markdown_utils/compliance_formatter.py:24-39 | each level holds exactly when its condition on the compliant, non-compliant and human-check texts holds; neither text means the ticket is skipped |
| Compliance.Aggregate | pr_agent/algo/markdown_utils/compliance_formatter.py:66-86 | the overall level read off which ticket levels occur, each of the four levels as an if-and-only-if |
| Compliance.AggregateOrderFree | pr_agent/algo/markdown_utils/compliance_formatter.py:66-86 | the overall level depends only on the set of ticket levels |
| Compliance.LastSegmentFree | pr_agent/algo/markdown_utils/compliance_formatter.py:52 | `url.split('/')[-1]` holds no '/' |
| Compliance.LastSegmentSuffix | pr_agent/algo/markdown_utils/compliance_formatter.py:52 | `url.split('/')[-1]` is a suffix of the URL |
| Compliance.TicketMarkdown | pr_agent/algo/markdown_utils/compliance_formatter.py:7-101 | a non-list value leaves the markdown unchanged; the result always extends the given markdown |
| Compliance.EmptyTicketSkipped | pr_agent/algo/markdown_utils/compliance_formatter.py:24-27 | a ticket with neither kind of requirement adds no level and no entry |
| Compliance.KeptTicketListed | pr_agent/algo/markdown_utils/compliance_formatter.py:42-52 | a kept ticket appends its level and an entry "**[last segment](url) - level**" after the earlier entries |
| Compliance.ProcessTicket | pr_agent/algo/markdown_utils/compliance_formatter.py:14-63 | the loop body reads one ticket as TicketOf says, None where it continues |
| Compliance.TallyTickets | pr_agent/algo/markdown_utils/compliance_formatter.py:13-63 | the loop collects the entries and levels of TicketsTally |
| Compliance.TicketMarkdownLogic | pr_agent/algo/markdown_utils/compliance_formatter.py:7-101 | the method computes TicketMarkdown |
| GitlabDiff.GetEditType | pr_agent/git_providers/gitlab_utils/diff_handler.py:172-178 | an empty line raises IndexError; otherwise deletion exactly for '-', addition exactly for '+', context for anything else |
| GitlabDiff.FindInFile | pr_agent/git_providers/gitlab_utils/diff_handler.py:138-170 | the loop gives the result of the scan over the patch lines |
| GitlabDiff.ScanFound | pr_agent/git_providers/gitlab_utils/diff_handler.py:146-169 | a hit (or the IndexError of an empty hit line) is reported exactly when some scanned line matches the text or its '+'-stripped form |
| GitlabDiff.ScanShape | pr_agent/git_providers/gitlab_utils/diff_handler.py:139-170 | a miss reports 'context', the target file is the file searched, and the only failure is IndexError |
| GitlabDiff.ScanCounts | pr_agent/git_providers/gitlab_utils/diff_handler.py:155-161 | over lines with no header and no match the old and new counters grow by the lines on each side |
| GitlabDiff.HeaderResets | pr_agent/git_providers/gitlab_utils/diff_handler.py:147-154 | a hunk header sets both counters to its starts, whatever they were |
| GitlabDiff.SearchLine | pr_agent/git_providers/gitlab_utils/diff_handler.py:128-136 | the loop gives SearchSpec: the scan of the last file with that name |
| GitlabDiff.SearchErrStays | pr_agent/git_providers/gitlab_utils/diff_handler.py:132-135 | once a scan has raised, later files do not change the outcome |
| GitlabDiff.NoSuchFileRaises | pr_agent/git_providers/gitlab_utils/diff_handler.py:129-136 | with no file of that name the unbound `found` raises a NameError |
| GitlabDiff.OneFileSearched | pr_agent/git_providers/gitlab_utils/diff_handler.py:132-136 | with exactly one file of that name the answer is that file's scan |
| GitlabDiff.EditTypeOf | pr_agent/git_providers/gitlab_utils/diff_handler.py:72-78 | added exactly for a new file, then deleted, then renamed, modified otherwise |
| GitlabDiff.PlusMinusBound | pr_agent/git_providers/gitlab_utils/diff_handler.py:86-87 | the '+' and '-' line counts together never exceed the number of lines |
| GitlabDiff.CountAppend | pr_agent/git_providers/gitlab_utils/diff_handler.py:86-87 | counting over two runs of lines adds up |
| GitlabDiff.FileOf | pr_agent/git_providers/gitlab_utils/diff_handler.py:69-95 | the record's name, edit type and old name come from the change; a non-empty diff is the patch; the line counts fit the patch |
| GitlabDiff.GatherCounts | pr_agent/git_providers/gitlab_utils/diff_handler.py:45-95 | one record per valid change, in order, and the counter counts them; with every diff present, contents are fetched twice for each of the first `max_files_allowed` valid files only |
| GitlabDiff.EconomyModeRequests | pr_agent/git_providers/gitlab_utils/diff_handler.py:54-67 | 20 valid changes with diffs and a limit of 6 make 12 content requests and 20 records |
| GitlabDiff.GitlabProvider.GetDiffFiles | pr_agent/git_providers/gitlab_utils/diff_handler.py:22-100 | a cached list is returned unchanged; otherwise the records gathered from the expanded, filtered changes, which are cached |
| GitlabDiff.GitlabProvider.GetFiles | pr_agent/git_providers/gitlab_utils/diff_handler.py:102-107 | the cached names, or the non-empty new paths of the expanded changes, cached |
| GitlabDiff.BuildFile | pr_agent/git_providers/gitlab_utils/diff_handler.py:69-95 | one change's record as FileOf says |
| GitlabDiff.NewPaths | pr_agent/git_providers/gitlab_utils/diff_handler.py:106 | exactly the non-empty new paths of the changes |
| GitlabDiff.CollectNewPaths | pr_agent/git_providers/gitlab_utils/diff_handler.py:106 | the comprehension's loop gives NewPaths |
| GitlabDiff.GetRelevantDiff | pr_agent/git_providers/gitlab_utils/diff_handler.py:109-126 | no versions give None; the first version when some change of the file holds the line; the provider's last diff otherwise |
| GitlabChanges.UrlToProjectPath | pr_agent/git_providers/gitlab_utils/submodule_handler.py:75-85 | a path found is never empty; an unparsable non-SSH URL gives None |
| GitlabChanges.SshUrlProjectPath | pr_agent/git_providers/gitlab_utils/submodule_handler.py:77-83 | `git@host:group/project.git` names `group/project` |
| GitlabChanges.UrlPathProjectPath | pr_agent/git_providers/gitlab_utils/submodule_handler.py:79-83 | any other URL whose path is leading '/'s, a project and an optional ".git" names that project |
| Text.LStripPrefix | pr_agent/git_providers/gitlab_utils/submodule_handler.py:80 | `lstrip` takes off exactly a leading run of stripped characters |
| GitlabChanges.HexRun | pr_agent/git_providers/gitlab_utils/submodule_handler.py:155-156 | the leading run of lower-case hex digits, maximal |
| GitlabChanges.FirstShaShape | pr_agent/git_providers/gitlab_utils/submodule_handler.py:155-156 | a sha found has 7 to 40 lower-case hex digits |
| GitlabChanges.LineShaOf | pr_agent/git_providers/gitlab_utils/submodule_handler.py:155-156 | a "Subproject commit" line gives its sha for its own sign and none for the other |
| GitlabChanges.SubmoduleBumpShas | pr_agent/git_providers/gitlab_utils/submodule_handler.py:155-159 | a submodule bump gives the old sha from the '-' line and the new one from the '+' line |
| GitlabChanges.SubEntries | pr_agent/git_providers/gitlab_utils/submodule_handler.py:174-185 | one entry per submodule diff, in order |
| GitlabChanges.SubmoduleHandler.constructor | pr_agent/git_providers/gitlab_utils/submodule_handler.py:9-11 | a new handler has an empty cache |
| GitlabChanges.SubmoduleHandler.CompareSubmodule | pr_agent/git_providers/gitlab_utils/submodule_handler.py:116-136 | the diffs of the comparison ([] on failure), stored in the cache under the key |
| GitlabChanges.SubmoduleHandler.ExpandSubmoduleChanges | pr_agent/git_providers/gitlab_utils/submodule_handler.py:138-186 | the changes followed by the entries of every submodule bump, as Expanded says |
| GitlabChanges.SubmoduleHandler.ExpandOne | pr_agent/git_providers/gitlab_utils/submodule_handler.py:151-185 | one loop pass adds the entries of the change's submodule, if any |
| GitlabChanges.Target1 | pr_agent/git_providers/gitlab_utils/submodule_handler.py:151-170 | the body's checks in order: marker, both shas, a known URL, a project path |
| GitlabChanges.AppendEntries | pr_agent/git_providers/gitlab_utils/submodule_handler.py:174-185 | the inner loop gives SubEntries |
| GitlabChanges.SubEntryInside | pr_agent/git_providers/gitlab_utils/submodule_handler.py:175-181 | an appended entry's paths are the submodule path or lie under it; a missing new path falls back to the old one |
| GitlabChanges.AppendedFromTargets | pr_agent/git_providers/gitlab_utils/submodule_handler.py:150-185 | every appended entry comes from a change naming a submodule with both shas and a known URL |
| GitlabChanges.NoSubprojectNoEntries | pr_agent/git_providers/gitlab_utils/submodule_handler.py:151-153 | when no diff holds "Subproject commit" the changes come back unchanged |
| DeletionHunks.LongestClosedPrefix | pr_agent/algo/git_patch_processing.py:234-270 | the kept lines are a prefix of the buffered lines, closed by an added line after a header, and no longer prefix is (with LongestClosedPrefixMaximal, LongestClosedPrefixUnique) |
| DeletionHunks.LongestClosedPrefixMaximal | pr_agent/algo/git_patch_processing.py:255-268 | no prefix longer than the kept one ends a hunk that has an added line |
| DeletionHunks.LongestClosedPrefixUnique | pr_agent/algo/git_patch_processing.py:255-268 | a closed prefix with no longer closed prefix is the kept prefix |
| DeletionHunks.UnflushedDropped | pr_agent/algo/git_patch_processing.py:255-268 | lines still in `temp_hunk` at the end are dropped unless a '+' line follows their header |
| DeletionHunks.OmitDeletionHunks | pr_agent/algo/git_patch_processing.py:234-270 | the loop gives Omitted: the kept lines joined with "\n" |
| DeletionHunks.OmitLine | pr_agent/algo/git_patch_processing.py:250-266 | one pass keeps the buffer invariant: flushed lines plus temp_hunk are the lines seen so far, and the flags say what temp_hunk holds |
| DeletionHunks.NoAdditionOmitsAll | pr_agent/algo/git_patch_processing.py:243-270 | a patch without a '+' line becomes the empty string |
| DeletionHunks.TrailingDeletionHunksDropped | pr_agent/algo/git_patch_processing.py:255-268 | a trailing run of hunks with no '+' line is dropped and what comes before is kept |
| DeletionHunks.EndingInAdditionKept | pr_agent/algo/git_patch_processing.py:255-268 | a patch that starts with a header and ends with an added line is kept whole, deletion-only hunks inside it included |
| DeletionHunks.OmitIdempotent | pr_agent/algo/git_patch_processing.py:234-270 | omitting the deletion hunks twice gives what omitting them once gives |
| DeletionHunks.HandlePatchDeletions | pr_agent/algo/git_patch_processing.py:273-303 | None exactly for a file with no new content whose edit type is deleted or unknown; otherwise the patch with deletion hunks omitted |
| DeletionHunks.ModifiedWithoutAdditions | pr_agent/algo/git_patch_processing.py:296-303 | a modified file whose patch adds nothing gets the empty patch, not None |
| PatchProcessing.ContextLimitsBounds | pr_agent/algo/git_patch_processing.py:117-127 | starts are at least 1; the old side does not run past the file unless it keeps the hunk size; sizes never shrink below the hunk's; inside the file the old side ends `after` lines past the hunk |
| PatchProcessing.FirstContainingIsFirst | pr_agent/algo/git_patch_processing.py:137-138 | the index found is the first line holding the section text |
| PatchProcessing.FirstSuffixMatchAgrees | pr_agent/algo/git_patch_processing.py:162-164 | where the search stops inside the old context the tails of old and new context agree |
| PatchProcessing.FirstSuffixMatchIsFirst | pr_agent/algo/git_patch_processing.py:162-171 | no earlier index has equal tails |
| PatchProcessing.DynamicLimitsUnfold | pr_agent/algo/git_patch_processing.py:130-151 | the dynamic context uses the dynamic limits, searches the lines before the hunk, and falls back to the static limits |
| PatchProcessing.FirstReconciling | pr_agent/algo/patch_processor.py:169-180 | an encoding found is not the skipped cached one and re-encodes the original line to the patch line |
| PatchProcessing.FirstReconcilingNone | pr_agent/algo/patch_processor.py:169-182 | nothing is found only when no other encoding reconciles the lines |
| PatchProcessing.NextCache | pr_agent/algo/patch_processor.py:161-180 | the cached encoding is kept when it still works, else replaced only by one that works |
| PatchProcessing.CheckSpec | pr_agent/algo/patch_processor.py:147-187 | the verdict is the module check's; the cache changes only for the caching copy and only on a mismatch |
| PatchProcessing.ExceptionVerdicts | pr_agent/algo/git_patch_processing.py:215-216 | when the check raises, the module copy calls the hunk valid and the caching copy invalid |
| PatchProcessing.TrimBlockOriginal | pr_agent/algo/git_patch_processing.py:157-177 | the lines prepended equal the original lines from the new start up to the hunk |
| PatchProcessing.TrimBlockNew | pr_agent/algo/git_patch_processing.py:158-171 | with the new file known, they also equal its lines up to the new-side start |
| PatchProcessing.TrimBlockEnd | pr_agent/algo/git_patch_processing.py:157-177 | the prepended block ends where the hunk begins |
| PatchProcessing.BaseLimitsBounds | pr_agent/algo/git_patch_processing.py:130-154 | the limits start on line 1 or later, and not after a hunk that lies in the file |
| PatchProcessing.ExtensionBlock | pr_agent/algo/git_patch_processing.py:157-190 | a widened hunk is preceded by the original lines from its new start up to the hunk, each behind a space |
| PatchProcessing.ExtensionBlockNew | pr_agent/algo/git_patch_processing.py:158-177 | with the new file known, those lines are also the new file's lines before the new-side start |
| PatchProcessing.ExtensionBlockEnd | pr_agent/algo/git_patch_processing.py:157-177 | for a hunk inside the file the block ends exactly where the hunk begins |
| PatchProcessing.ExtensionIsTrim | pr_agent/algo/git_patch_processing.py:129-177 | the extension's limits and block are those of the old/new comparison |
| PatchProcessing.ExtensionSection | pr_agent/algo/git_patch_processing.py:138-184 | the section text is kept or blanked: in static mode blanked exactly when a prepended line holds it; in dynamic mode only when the new file anchors it |
| PatchProcessing.UnextendedIsIdentity | pr_agent/algo/git_patch_processing.py:82-97 | with no context asked for, each prefix of the patch is copied unchanged |
| PatchProcessing.UnextendedProcess | pr_agent/algo/git_patch_processing.py:82-100 | with no context asked for, `process` returns the patch lines unchanged |
| PatchProcessing.BodyCopied | pr_agent/algo/git_patch_processing.py:84-97 | lines that do not open a hunk, "@@" lines the pattern rejects included, are copied through |
| PatchProcessing.CopyStep | pr_agent/algo/git_patch_processing.py:97 | a line that does not open a hunk is appended |
| PatchProcessing.ExtendedHunkLayout | pr_agent/algo/git_patch_processing.py:82-190 | a valid widened hunk is written as previous after-context, "", the widened header, the prepended block and the body verbatim, and stays open with its own start and size |
| PatchProcessing.InvalidHunkUnchanged | pr_agent/algo/git_patch_processing.py:91-105 | a hunk failing the check keeps its header, gets no block and no after-context |
| PatchProcessing.HeaderStep | pr_agent/algo/git_patch_processing.py:84-96 | a header line closes the previous hunk, opens this one, and widens it or copies the header |
| PatchProcessing.AnchorSearch | pr_agent/algo/git_patch_processing.py:136-151 | the loop gives AnchorOrFallback: the anchored limits when the tails agree from the section line, the static limits otherwise |
| PatchProcessing.FindContaining | pr_agent/algo/git_patch_processing.py:137-138 | the loop finds FirstContaining |
| PatchProcessing.FindSuffixMatch | pr_agent/algo/git_patch_processing.py:162-171 | the loop finds FirstSuffixMatch |
| PatchProcessing.PatchProcessor.constructor | pr_agent/algo/git_patch_processing.py:58-80 | the lines are split, the settings stored, and the state is the initial one (start1 = -1, valid, no section) |
| PatchProcessing.PatchProcessor.Process | pr_agent/algo/git_patch_processing.py:82-100 | the output is ProcessedLines joined with "\n" |
| PatchProcessing.PatchProcessor.ProcessLine | pr_agent/algo/git_patch_processing.py:83-97 | one loop pass moves the state by Step |
| PatchProcessing.PatchProcessor.ProcessHeader | pr_agent/algo/git_patch_processing.py:86-96 | a header line moves the state by Step |
| PatchProcessing.PatchProcessor.OpenHeader | pr_agent/algo/git_patch_processing.py:88-89 | the header's numbers and section become the current hunk, which is then checked |
| PatchProcessing.PatchProcessor.FinishPreviousHunk | pr_agent/algo/git_patch_processing.py:102-105 | the after-context of the hunk being closed is appended |
| PatchProcessing.PatchProcessor.FinishLastHunk | pr_agent/algo/git_patch_processing.py:107-111 | the same after-context is appended once the loop is over |
| PatchProcessing.PatchProcessor.CheckHunk | pr_agent/algo/patch_processor.py:147-187 | the verdict and the cached encoding are CheckSpec's, for either copy |
| PatchProcessing.PatchProcessor.DynamicContext | pr_agent/algo/git_patch_processing.py:130-151 | the limits and section are DynamicLimits' |
| PatchProcessing.PatchProcessor.CommonContext | pr_agent/algo/git_patch_processing.py:156-177 | the limits and block are TrimToCommon's |
| PatchProcessing.PatchProcessor.ExtendHunk | pr_agent/algo/git_patch_processing.py:129-190 | the state moves by ExtendState: the empty line, the widened header and the block are appended |
| PatchProcessing.FirstDecodingIsFirst | pr_agent/algo/git_patch_processing.py:40-45 | a decoded text comes from the first fallback encoding that accepts the bytes |
| PatchProcessing.DecodedText | pr_agent/algo/git_patch_processing.py:35-47 | text is returned as is; bytes through UTF-8 when it decodes, else the first fallback; "" only when every encoding fails or one decodes to "" |
| PatchProcessing.DecodeIfBytes | pr_agent/algo/git_patch_processing.py:35-47 | the loop gives DecodedText |
| PatchProcessing.ShouldSkipPatch | pr_agent/algo/git_patch_processing.py:50-54 | true exactly when the file name is non-empty and ends with a configured extension |
| PatchProcessing.ExtendPatchSpec | pr_agent/algo/git_patch_processing.py:11-32 | the patch comes back unchanged when empty, when no context is asked for, when the original is missing or undecodable, or when the file type is skipped |
| PatchProcessing.ExtendPatchWithoutContext | pr_agent/algo/git_patch_processing.py:13-100 | with no positive context the patch only has its lines split and rejoined |
| PatchProcessing.ExtendPatch | pr_agent/algo/git_patch_processing.py:11-32 | the processor run as an object gives ExtendPatchSpec |
| DualView.DecoupleLines | pr_agent/algo/git_patch_processing.py:340-431 | a deleted file gives exactly the deletion message; any other successful rendering is right-stripped |
| DualView.AppendHunk | pr_agent/algo/git_patch_processing.py:369-387 | closing a hunk appends CloseHunk's pieces: the new view when the hunk adds or deletes, the old view when it deletes |
| DualView.AppendNewView | pr_agent/algo/git_patch_processing.py:376-380 | the previous piece is right-stripped, then the new-hunk marker and each line after its new-file number |
| DualView.AppendOldView | pr_agent/algo/git_patch_processing.py:383-387 | the previous piece is right-stripped, then the old-hunk marker and each old line with a newline |
| DualView.DecoupleAndConvert | pr_agent/algo/git_patch_processing.py:306-431 | the loop gives Decouple for the revision asked for |
| DualView.FlushHunk | pr_agent/algo/git_patch_processing.py:366-389 | a new header after buffered lines writes the previous header and the closed hunk, and empties the buffers |
| DualView.DecoupleLine | pr_agent/algo/git_patch_processing.py:358-406 | one loop pass moves the state by DStep |
| DualView.DRunErrSticky | pr_agent/algo/git_patch_processing.py:358-406 | once the loop has failed it stays failed |
| DualView.MarkerIgnored | pr_agent/algo/git_patch_processing.py:360-361 | a "no newline at end of file" marker changes nothing |
| DualView.UnmatchedHeaderFails | pr_agent/algo/git_patch_processing.py:363-393 | an "@@" line the pattern rejects makes the conversion fail with AttributeError (extract_hunk_headers on None) |
| DualView.DRunFirstErr | pr_agent/algo/git_patch_processing.py:390-393 | the only failure the loop has is that AttributeError |
| DualView.IntToStringHead | pr_agent/algo/git_patch_processing.py:380 | a rendered line number is never empty and never starts with a newline |
| DualView.CloseHunkViews | pr_agent/algo/git_patch_processing.py:369-387 | closing a hunk adds something exactly when it adds or deletes a line, and the old view exactly when it deletes one |
| DualView.NoMarkerPieces | pr_agent/algo/git_patch_processing.py:379-387 | no numbered or old-view piece of a line is the old-hunk marker |
| DualView.TrailingDeletionHunkDropped | pr_agent/algo/git_patch_processing.py:408-429 | as written, a last hunk that only deletes a line renders as nothing: "@@ -1,1 +0,0 @@" then "-x" gives "" |
| DualView.TrailingDeletionHunkShown | pr_agent/algo/git_patch_processing.py:408-429 | with the corrected final flush, a last hunk that deletes a line is shown with its old view |
| DualView.ExtractHunkLines | pr_agent/algo/git_patch_processing.py:434-493 | with trailing characters removed both strings are right-stripped |
| DualView.ExtractHunkLinesFromPatch | pr_agent/algo/git_patch_processing.py:434-493 | the loop gives ExtractHunkLines as written |
| DualView.ExtractLine | pr_agent/algo/git_patch_processing.py:447-481 | one loop pass moves the state by XStep as written |
| DualView.XRunErrSticky | pr_agent/algo/git_patch_processing.py:447-484 | once the loop has failed it stays failed |
| DualView.UnmatchedHeaderGivesEmpty | pr_agent/algo/git_patch_processing.py:457-484 | an "@@" line the pattern rejects turns the answer into two empty strings |
| DualView.HeaderOpensHunk | pr_agent/algo/git_patch_processing.py:452-471 | a header restarts the count and takes the hunk's starts; it is skipped exactly when the queried side does not hold the start line; only a kept hunk's header is written |
| DualView.CountNew | pr_agent/algo/git_patch_processing.py:480-481 | the count of lines that are not deletions is at most the lines counted |
| DualView.XRunInHunk | pr_agent/algo/git_patch_processing.py:473-481 | within a hunk the count is the earlier non-deletion lines of the hunk, and a skipped hunk renders nothing |
| DualView.RightSelection | pr_agent/algo/git_patch_processing.py:475-476 | on the right side a line of a kept hunk is selected exactly when its new-file number lies in the range |
| DualView.LeftSelectionCorrected | pr_agent/algo/git_patch_processing.py:477-478 | corrected: on the left side a line is selected exactly when the hunk's old start plus the count lies in the range |
| DualView.LeftSelectionIgnoresStart | pr_agent/algo/git_patch_processing.py:477-478 | as written: hunk "@@ -9,5 +9,5 @@", lines 10 to 12, left side: line 9 is selected although it lies before the range |
| DiffProcessing.NextNewlineFirst | pr_agent/algo/diff_processing.py:202 | the newline found is the first at or after the position, and there is none when none is found |
| DiffProcessing.NextNewlineIsFind | pr_agent/algo/diff_processing.py:202 | the character scan agrees with `str.find("\n", pos)` |
| DiffProcessing.AddAiSummaryTopPatch | pr_agent/algo/diff_processing.py:196-222 | the loop gives SummaryFrom from position 0 with the summary heading and text |
| DiffProcessing.SummaryBelowFirstHeading | pr_agent/algo/diff_processing.py:211-215 | at the first line starting with "## File:" or "## file:" the summary is inserted at that line's end and nothing else changes |
| DiffProcessing.SkipLine | pr_agent/algo/diff_processing.py:202-219 | a line that is not a heading is passed over |
| DiffProcessing.NoHeadingUnchanged | pr_agent/algo/diff_processing.py:218-222 | without a heading line the text comes back unchanged |
| DiffProcessing.SummaryRemovable | pr_agent/algo/diff_processing.py:196-222 | the result is the text, or the text with the summary inserted at one position |
| DiffProcessing.GenerateFullPatch | pr_agent/algo/diff_processing.py:137-193 | the loop gives PassRun: the total, the blocks, the deferred and the included names |
| DiffProcessing.PassInvariant | pr_agent/algo/diff_processing.py:148-190 | the total starts at the prompt's tokens and never drops; the included and deferred names are exactly those whose decision says so, in input order; one block per included name |
| DiffProcessing.TotalMonotone | pr_agent/algo/diff_processing.py:181-187 | the running total never decreases |
| DiffProcessing.PassBlocks | pr_agent/algo/diff_processing.py:172-190 | each block is the file's heading (or a blank line) and its stripped patch |
| DiffProcessing.MissingNeitherListed | pr_agent/algo/diff_processing.py:149-151 | a name missing from the dictionary is neither included nor deferred |
| DiffProcessing.ThresholdsRespected | pr_agent/algo/diff_processing.py:18-170 | an included file fitted under the soft threshold (1500), a deferred one did not while the total was under the hard one (1000); the hard stop is exactly a total past the hard threshold |
| DiffProcessing.ExtFoldAppend | pr_agent/algo/diff_processing.py:33-63 | the fold over the first files does not depend on the later ones |
| DiffProcessing.ExtFoldErrPrefix | pr_agent/algo/diff_processing.py:33-63 | a failure on an earlier file is the failure of the whole |
| DiffProcessing.ExtendFile | pr_agent/algo/diff_processing.py:35-57 | one file's text, step by step, is Render's |
| DiffProcessing.RenderedCoherent | pr_agent/algo/diff_processing.py:35-59 | files with the same data have the same outcome |
| DiffProcessing.Retokened | pr_agent/algo/diff_processing.py:60 | once `file.tokens` is set, every position that holds that file reads the new value and no other changes |
| DiffProcessing.Retokens | pr_agent/algo/diff_processing.py:59-60 | after the loop each file with a text holds that text's count and the others keep theirs |
| DiffProcessing.ProgressStep | pr_agent/algo/diff_processing.py:59-60 | one more file through the loop writes its count at each of its positions when it has a text |
| DiffProcessing.SetTokens | pr_agent/algo/diff_processing.py:60 | the write changes the file's count everywhere it appears and no data |
| DiffProcessing.RenderAt | pr_agent/algo/diff_processing.py:35-57 | the outcome computed for a file is its precomputed outcome |
| DiffProcessing.ExtendGroup | pr_agent/algo/diff_processing.py:34-63 | the inner loop folds the group's files, sets their counts, and changes no data |
| DiffProcessing.ExtendOne | pr_agent/algo/diff_processing.py:35-63 | the inner loop body folds one more file and sets its count |
| DiffProcessing.PrGenerateExtendedDiff | pr_agent/algo/diff_processing.py:23-65 | the texts, total and counts are ExtRun over the files' data; each file with a text has its tokens set to the text's count; no other field changes |
| DiffProcessing.ExtendGroups | pr_agent/algo/diff_processing.py:33-63 | the two loops fold every file in order and leave every count as Retokens says |
| DiffProcessing.ExtendNext | pr_agent/algo/diff_processing.py:33-63 | the outer loop body folds the next group |
| DiffProcessing.ExtendedTotals | pr_agent/algo/diff_processing.py:28-63 | the total is the prompt's tokens plus one count per text, each that text's count, and never more texts than files |
| DiffProcessing.EmptyPatchSkipped | pr_agent/algo/diff_processing.py:37-39 | a file without a patch adds nothing |
| DiffProcessing.PlainTextIsHeaded | pr_agent/algo/diff_processing.py:52-53 | without line numbers a text is the file heading then the stripped extension with a blank line before each hunk |
| CompressedDiff.SortDescSpec | pr_agent/algo/diff_processing.py:76 | each language's sorted files are in descending token order and a permutation of its files |
| CompressedDiff.SortDescStable | pr_agent/algo/diff_processing.py:76 | the sort is stable: files with equal counts keep their order, as Python's `sorted(..., reverse=True)` does |
| CompressedDiff.SortedFilesPermutes | pr_agent/algo/diff_processing.py:74-76 | sorting the languages loses and adds no file |
| CompressedDiff.Prepare | pr_agent/algo/diff_processing.py:81-103 | an empty patch is skipped exactly; a file with no new content whose edit type is deleted or unknown is removed exactly; only the line-numbered rendering can fail; an entry's count is its patch's count and it keeps the edit type |
| CompressedDiff.DictFoldErr | pr_agent/algo/diff_processing.py:80-103 | the dictionary loop fails exactly when one file's rendering fails |
| CompressedDiff.DictFoldErrSticky | pr_agent/algo/diff_processing.py:80-103 | the first failure is the result of the whole loop |
| CompressedDiff.DeletedAreFirstRemovals | pr_agent/algo/diff_processing.py:90-93 | the deleted list names each removed file once, in the order of first removal |
| CompressedDiff.OrderIsFirstEntries | pr_agent/algo/diff_processing.py:79-103 | the dictionary's iteration order lists each entered name once, in order of first entry, and its names are exactly the keys |
| CompressedDiff.DictFoldStep | pr_agent/algo/diff_processing.py:103 | an entry sets its name's value; a skipped or removed file leaves the dictionary alone |
| CompressedDiff.FileDictKeys | pr_agent/algo/diff_processing.py:103 | a name is a key exactly when some file of that name made an entry |
| CompressedDiff.FileDictLast | pr_agent/algo/diff_processing.py:103 | a key's value is the last entry made for it |
| CompressedDiff.FileDictTokens | pr_agent/algo/diff_processing.py:102-103 | every entry's count is the tokenizer's count of its patch |
| CompressedDiff.BuildFileDict | pr_agent/algo/diff_processing.py:79-103 | the loop gives DictRun |
| CompressedDiff.PrGenerateCompressedDiff | pr_agent/algo/diff_processing.py:68-134 | the result is CompressedSpec over the languages' files with the model's token limit |
| CompressedDiff.CompressSorted | pr_agent/algo/diff_processing.py:79-134 | after sorting: the dictionary loop, the model limit, the passes |
| CompressedDiff.GeneratePasses | pr_agent/algo/diff_processing.py:107-132 | the first pass over every sorted name, then the large-PR passes |
| CompressedDiff.SortLanguages | pr_agent/algo/diff_processing.py:74-76 | the loop gives SortedFiles: each language's files sorted descending, language by language |
| CompressedDiff.FurtherPasses | pr_agent/algo/diff_processing.py:119-132 | `max_ai_calls - 2` rounds at most, each a pass over the deferred names, recorded when it includes something, stopping when nothing is deferred |
| CompressedDiff.NextPass | pr_agent/algo/diff_processing.py:122-132 | one round moves the lists on by one step of MorePasses |
| CompressedDiff.PickedFrom | pr_agent/algo/diff_processing.py:148-190 | a pass includes and defers only names it was given |
| CompressedDiff.MorePassesSpec | pr_agent/algo/diff_processing.py:119-132 | at most `k` further passes, each non-empty, and every name they include or defer was deferred before |
| CompressedDiff.SinglePassUnlessLarge | pr_agent/algo/diff_processing.py:119 | without large-PR handling there is one pass and its deferred names are returned |
| CompressedDiff.CompressedShape | pr_agent/algo/diff_processing.py:68-134 | the lists run in parallel, with 1 to `max_ai_calls - 1` passes, the later ones non-empty; deleted files are listed once each; the dictionary order names each key once |
| PrProcessing.CapAndLogExtraLines | pr_agent/algo/pr_processing.py:25-29 | values above MAX_EXTRA_LINES become it, all others (negatives too) are kept |
| PrProcessing.ExtraLines | pr_agent/algo/pr_processing.py:38-48 | disabled gives (0, 0), token-economy mode (1, 1), otherwise the configured values capped; never above the cap |
| PrProcessing.GetPrDiff | pr_agent/algo/pr_processing.py:32-139 | a fetch failure is raised again unchanged; otherwise the result is PrDiffSpec over the files' data |
| PrProcessing.DiffAfterExtended | pr_agent/algo/pr_processing.py:65-139 | after the extended diff: PrDiffAfter |
| PrProcessing.PrunedDiff | pr_agent/algo/pr_processing.py:70-139 | the full diff when it fits, else the pruned compressed diff |
| PrProcessing.Prune | pr_agent/algo/pr_processing.py:81-139 | after the compressed diff: "" for a large PR with several documents, else the trailered first document, with the deferred names when asked |
| PrProcessing.Trailer | pr_agent/algo/pr_processing.py:86-132 | the first document, and the file lists when room permits, as Trailered says |
| PrProcessing.AppendAll | pr_agent/algo/pr_processing.py:122-132 | the three lists are appended in turn, each one's tokens counted against the next |
| PrProcessing.AppendClipped | pr_agent/algo/pr_processing.py:122-125 | one list is clipped to the tokens left and appended after a blank line unless it clipped to nothing |
| PrProcessing.BuildFileLists | pr_agent/algo/pr_processing.py:98-119 | the loop over the dictionary in insertion order gives FileLists |
| PrProcessing.ListFile | pr_agent/algo/pr_processing.py:99-119 | one pass adds the name to the list of its kind, unless the first document has it |
| PrProcessing.ListTextSnoc | pr_agent/algo/pr_processing.py:102-119 | one more name extends its list by a line, starting it with the heading when it was empty |
| PrProcessing.ListedSpec | pr_agent/algo/pr_processing.py:99-119 | a name is listed exactly when it is in the dictionary, not in the first document and of a listed kind; no list names a file twice |
| PrProcessing.ListTextEmpty | pr_agent/algo/pr_processing.py:104-119 | a list is empty exactly when it names no file |
| PrProcessing.ListsByKind | pr_agent/algo/pr_processing.py:102-119 | each file left out goes to the one list of its kind (added; modified or renamed; deleted); unknown kinds go to none |
| PrProcessing.InPatchNotListed | pr_agent/algo/pr_processing.py:100-101 | a file in the first document is on no list |
| PrProcessing.TrailerAfterFirstDocument | pr_agent/algo/pr_processing.py:91-98 | the pruned diff starts with the first document; with ten tokens or fewer to spare it is that document |
| PrProcessing.AppendListsExtend | pr_agent/algo/pr_processing.py:122-132 | appending the lists keeps the text before them; empty lists change nothing |
| PrProcessing.AppendListExtends | pr_agent/algo/pr_processing.py:122-125 | appending one list keeps what came before |
| PrProcessing.PrDiffCases | pr_agent/algo/pr_processing.py:70-139 | the joined extended diff when it leaves the soft buffer free; "" for a large PR split into several documents; else a text starting with the first document, with the deferred names exactly when asked |
| PrProcessing.GetPrDiffMultiplePatchs | pr_agent/algo/pr_processing.py:142-161 | a fetch failure is raised again; otherwise the compressed diff with large-PR handling on |
| PrProcessing.GetModel | pr_agent/algo/utils.py:40-45 | the weak or reasoning model when one is set, else the regular model |
| PrProcessing.GetAllModels | pr_agent/algo/pr_processing.py:189-202 | the model of the type asked for, then the fallbacks: a list as is, a string split at commas and stripped |
| PrProcessing.GetAllDeployments | pr_agent/algo/pr_processing.py:205-217 | at least one deployment per model, the first being the configured one; the only failure is ValueError |
| PrProcessing.DeploymentsCover | pr_agent/algo/pr_processing.py:208-216 | without fallbacks every model gets the deployment; with them, too few is exactly the error case |
| PrProcessing.FirstSuccessSpec | pr_agent/algo/pr_processing.py:172-186 | a success is the first pair's that succeeds, every earlier one failed; the final failure means every pair failed |
| PrProcessing.RetryWithFallbackModels | pr_agent/algo/pr_processing.py:168-186 | a deployment error is raised; otherwise the pairs are tried in order as FirstSuccess says |
| PrProcessing.Admitted | pr_agent/algo/pr_processing.py:308-326 | a text that fits stays; one that does not is skipped, or with policy "clip" clipped at a line end to the budget; a kept non-empty text fits |
| PrProcessing.GetPrMultiDiffs | pr_agent/algo/pr_processing.py:220-352 | a fetch failure is raised again; otherwise MultiDiffsSpec with the helpers imported |
| PrProcessing.ChunksAfterExtended | pr_agent/algo/pr_processing.py:261-352 | after the extended diff: MultiDiffsAfter |
| PrProcessing.ChunkFileText | pr_agent/algo/pr_processing.py:286-306 | one file's text, step by step, is ChunkText's |
| PrProcessing.ChunkFiles | pr_agent/algo/pr_processing.py:276-352 | the chunker's loop gives ChunkOutcome |
| PrProcessing.AddLastChunk | pr_agent/algo/pr_processing.py:347-350 | the last chunk is appended, stripped, when it has texts |
| PrProcessing.ChunkOne | pr_agent/algo/pr_processing.py:280-345 | one loop pass moves the chunker by ChunkFold, and an error is raised |
| PrProcessing.AdmitPatch | pr_agent/algo/pr_processing.py:308-326 | the policy step by step gives Admitted |
| PrProcessing.PlacePatch | pr_agent/algo/pr_processing.py:328-345 | a text that does not fit closes the chunk first; then it is appended and counted |
| PrProcessing.ChunkFoldStopped | pr_agent/algo/pr_processing.py:281-284 | once the calls are used up, later files change nothing |
| PrProcessing.ChunkFoldErrSticky | pr_agent/algo/pr_processing.py:280-345 | an error among the first files is the outcome |
| PrProcessing.PlaceKeeps | pr_agent/algo/pr_processing.py:328-345 | placing an admitted text keeps the chunk invariant |
| PrProcessing.ChunkFoldInvariant | pr_agent/algo/pr_processing.py:276-345 | the chunker keeps its invariant over any files |
| PrProcessing.ChunkRunBudget | pr_agent/algo/pr_processing.py:276-352 | at most `max_calls` chunks (none below one), each the joined texts of a chunk that with the prompt fits the limit less the soft buffer; the last one stripped |
| PrProcessing.MultiDiffsBudget | pr_agent/algo/pr_processing.py:261-352 | when the extended diff fits, its texts as one chunk or none; otherwise at most `max_calls` chunks |
| PrProcessing.AsWrittenQuietBefore | pr_agent/algo/pr_processing.py:280-295 | as written, while no file has a patch the chunker stays in its initial state |
| PrProcessing.AsWrittenNameError | pr_agent/algo/pr_processing.py:293 | as written, the first file with a patch raises NameError for `handle_patch_deletions`, so chunking never succeeds |
| CodeSuggestions.Relabelled | pr_agent/tools/pr_code_suggestions.py:264-267 | outside focus mode nothing changes; in it, a label holding "critical" in any case becomes "possible issue", other keys are kept, and a label that is not text raises |
| CodeSuggestions.ConstInsteadLet | pr_agent/tools/pr_code_suggestions.py:273-274 | for text, true exactly when it holds "const", "instead" and "let"; `in` on a number, a boolean or None raises |
| CodeSuggestions.Screened | pr_agent/tools/pr_code_suggestions.py:251-287 | a suggestion is kept exactly when it is a dictionary with the needed keys, an unseen summary, no "const instead let", both code keys and a truncation that succeeds; the kept one is relabelled and truncated and otherwise unchanged |
| CodeSuggestions.TruncateCommutes | pr_agent/tools/pr_code_suggestions.py:266-280 | relabelling does not change what truncation does |
| CodeSuggestions.ScreenSuggestions | pr_agent/tools/pr_code_suggestions.py:249-287 | the loop gives KeptOf: the kept suggestions and their summaries |
| CodeSuggestions.ScreenOne | pr_agent/tools/pr_code_suggestions.py:252-287 | one pass gives Screened, the needed-key loop included |
| CodeSuggestions.PrepareCodeSuggestions | pr_agent/tools/pr_code_suggestions.py:241-290 | the result is Prepared over the parsed output |
| CodeSuggestions.KeptShape | pr_agent/tools/pr_code_suggestions.py:269-282 | the summaries are those of the kept suggestions, no two kept suggestions share one, and each kept suggestion has the keys read later |
| CodeSuggestions.KeptInOrder | pr_agent/tools/pr_code_suggestions.py:251-282 | the kept suggestions of a prefix are a prefix of the kept suggestions |
| CodeSuggestions.KeptFromInput | pr_agent/tools/pr_code_suggestions.py:251-282 | every kept suggestion is an input suggestion, relabelled and truncated and otherwise unchanged |
| CodeSuggestions.DuplicateDropped | pr_agent/tools/pr_code_suggestions.py:269-271 | a suggestion whose summary was already kept is dropped |
| CodeSuggestions.TextItemsDropped | pr_agent/tools/pr_code_suggestions.py:251-262 | items that are texts are never kept |
| CodeSuggestions.ListWrapped | pr_agent/tools/pr_code_suggestions.py:245-246 | parsed output that is a list is screened as `{'code_suggestions': list}` |
| CodeSuggestions.PreparedKeepsOtherKeys | pr_agent/tools/pr_code_suggestions.py:251-290 | only the suggestions change; iterating a value that is not a list, text or dictionary is the only failure |
| CodeSuggestions.DualPickSpec | pr_agent/tools/pr_code_suggestions.py:225-233 | a selected suggestion scores at least the threshold and has improved code; an empty existing code is replaced by the improved code; a suggestion below the threshold is passed over |
| CodeSuggestions.DualPublishing | pr_agent/tools/pr_code_suggestions.py:222-239 | the selection to publish inline, [] when the selection raised |
| CodeSuggestions.DualSelectedNext | pr_agent/tools/pr_code_suggestions.py:225-233 | one more suggestion extends, keeps or aborts the selection as DualPick says |
| CodeSuggestions.DualAbortStays | pr_agent/tools/pr_code_suggestions.py:224-239 | once the selection raised it stays failed |
| CodeSuggestions.DualSelectedShape | pr_agent/tools/pr_code_suggestions.py:225-233 | every selected suggestion comes from an input suggestion that DualPick selects |
| CodeSuggestions.DualAbortsOnText | pr_agent/tools/pr_code_suggestions.py:226 | a suggestion that is not a dictionary aborts the selection |
| CodeSuggestions.InlineBody | pr_agent/tools/pr_code_suggestions.py:317-320 | the body opens with the description line and ends with the suggestion fence around the code |
| CodeSuggestions.InlineSpec | pr_agent/tools/pr_code_suggestions.py:303-326 | a suggestion gets a comment exactly when its fields can be read; the comment carries it, its stripped file name, its line range and a body that opens with the description |
| CodeSuggestions.InlineComments | pr_agent/tools/pr_code_suggestions.py:303-326 | the loop gives Inlines |
| CodeSuggestions.InlinesNext | pr_agent/tools/pr_code_suggestions.py:303-326 | one more suggestion adds its comment or, when a field cannot be read, nothing |
| CodeSuggestions.PushInlineCodeSuggestions | pr_agent/tools/pr_code_suggestions.py:292-332 | no suggestions gives the "No suggestions found" note; otherwise the calls Pushed says |
| CodeSuggestions.InlinesComplete | pr_agent/tools/pr_code_suggestions.py:303-326 | every suggestion with its fields in place gets its comment, in order |
| CodeSuggestions.PublishedCalls | pr_agent/tools/pr_code_suggestions.py:328-332 | the batch is the first call; when it is refused each comment is sent again alone, in order |
| CodeSuggestions.RepairedBodyIsDescription | pr_agent/tools/pr_code_suggestions.py:317-320 | cutting a body at its suggestion fence leaves the description line when content, label and score hold no backtick |
| SuggestionHelpers.FirstNonDigit | pr_agent/tools/pr_code_suggestions_utils/helpers.py:64-67 | the first non-digit from the index on: all before it are digits |
| SuggestionHelpers.RemoveLineNumbers | pr_agent/tools/pr_code_suggestions_utils/helpers.py:52-69 | one output per patch, each line with its number removed as Unnumbered says |
| SuggestionHelpers.SkipDigits | pr_agent/tools/pr_code_suggestions_utils/helpers.py:64-67 | the inner loop stops at FirstNonDigit, which lies inside a line that is not all digits |
| SuggestionHelpers.NumberedLineRestored | pr_agent/tools/pr_code_suggestions_utils/helpers.py:62-67 | a line "{n} {x}" becomes x |
| SuggestionHelpers.NewHunkNumbersRemoved | pr_agent/tools/pr_code_suggestions_utils/helpers.py:57-67 | the numbered lines of the dual view's new hunk lose their numbers again (with pr_agent/algo/git_patch_processing.py:380) |
| SuggestionHelpers.TruncateIfNeeded | pr_agent/tools/pr_code_suggestions_utils/helpers.py:101-110 | a limit of 0 or less changes nothing; otherwise only longer improved code is cut to the limit and followed by "\n" and the message; other keys are kept; the failing types raise |
| SuggestionHelpers.TruncatedText | pr_agent/tools/pr_code_suggestions_utils/helpers.py:105-109 | truncated code keeps the first `limit` characters and ends with "\n" and the message |
| SuggestionHelpers.CloseFrom | pr_agent/tools/pr_code_suggestions_utils/helpers.py:113-114 | the first "-->" on the same line; none exactly when every "-->" has a line break before it |
| SuggestionHelpers.CommentFrom | pr_agent/tools/pr_code_suggestions_utils/helpers.py:113-114 | the leftmost same-line comment, with its nearest close; none exactly when no comment starts from the position |
| SuggestionHelpers.ExtractLink | pr_agent/tools/pr_code_suggestions_utils/helpers.py:112-119 | "" exactly when the text holds no "<!--" followed by "-->" on the same line; otherwise " up to commit " and the stripped text of the leftmost such comment, up to its nearest close |
| SuggestionHelpers.ExtractLinkOfComment | pr_agent/tools/pr_code_suggestions_utils/helpers.py:112-119 | a comment written after text with no '<', its own text holding no '-' and no line break, gives " up to commit " and that text stripped |
| SuggestionHelpers.ExtractLinkOfCommitMarker | pr_agent/tools/pr_code_suggestions_utils/helpers.py:118 | the marker "<!-- sha -->" gives " up to commit sha" |
| SuggestionHelpers.NoCommentNoLink | pr_agent/tools/pr_code_suggestions_utils/helpers.py:116-119 | a text with no '<' at all gives no link |
| SuggestionHelpers.GetScoreStr | pr_agent/tools/pr_code_suggestions_utils/helpers.py:121-129 | "High" exactly from the high threshold, "Medium" exactly between the two, "Low" below both |
| SuggestionHelpers.ScoreStrMonotone | pr_agent/tools/pr_code_suggestions_utils/helpers.py:124-129 | a higher score never gets a lower word |
| SuggestionHelpers.AddSelfReviewText | pr_agent/tools/pr_code_suggestions_utils/helpers.py:251-262 | the checkbox line, then the approve marker when only approve is set, the fold marker when only fold is set, the combined marker otherwise |
| SuggestionHelpers.Members | pr_agent/tools/pr_code_suggestions_utils/helpers.py:156-160 | a group holds only suggestions with its label |
| SuggestionHelpers.Grouped | pr_agent/tools/pr_code_suggestions_utils/helpers.py:154-160 | one group per distinct label |
| SuggestionHelpers.LabelsStep | pr_agent/tools/pr_code_suggestions_utils/helpers.py:158-159 | a suggestion adds its label when the label is new |
| SuggestionHelpers.MembersStep | pr_agent/tools/pr_code_suggestions_utils/helpers.py:160 | a suggestion is appended to its label's members |
| SuggestionHelpers.FindGroup | pr_agent/tools/pr_code_suggestions_utils/helpers.py:158 | the group with the label, or none when no group has it |
| SuggestionHelpers.GroupedNewLabel | pr_agent/tools/pr_code_suggestions_utils/helpers.py:158-160 | a new label opens a group after the others |
| SuggestionHelpers.GroupedKnownLabel | pr_agent/tools/pr_code_suggestions_utils/helpers.py:160 | a known label's group gets the suggestion at its end |
| SuggestionHelpers.GroupByLabel | pr_agent/tools/pr_code_suggestions_utils/helpers.py:154-160 | the grouping loop gives Grouped |
| SuggestionHelpers.DistinctLabelsShape | pr_agent/tools/pr_code_suggestions_utils/helpers.py:154-160 | the labels are distinct, exactly those of the suggestions, and each has a member |
| SuggestionHelpers.SummaryOf | pr_agent/tools/pr_code_suggestions_utils/helpers.py:156-167 | a suggestion reads exactly when it is a mapping with a text "label" and a numeric "score"; the summary keeps that label, that score and the mapping |
| SuggestionHelpers.SummariesOf | pr_agent/tools/pr_code_suggestions_utils/helpers.py:156-167 | all suggestions read exactly when each does, giving their summaries in order |
| SuggestionHelpers.SummarizedLayout | pr_agent/tools/pr_code_suggestions_utils/helpers.py:133-249 | no suggestions gives exactly the heading and "No suggestions found"; the empty text exactly when some suggestion cannot be read; otherwise the heading, with the auto-command line exactly in auto mode, and the ordered table of the summaries |
| SuggestionHelpers.SummaryTableOrdered | pr_agent/tools/pr_code_suggestions_utils/helpers.py:163-167 | groups by highest score and members by score, both descending; the groups' labels are a permutation of the distinct labels and each group is a permutation of its members |
| SuggestionHelpers.MappedPermute | pr_agent/tools/pr_code_suggestions_utils/helpers.py:163-164 | reordering the groups reorders their labels alike |
| SuggestionHelpers.SameMax | pr_agent/tools/pr_code_suggestions_utils/helpers.py:164 | the largest score does not depend on member order |
| SuggestionHelpers.MaxScoreIs | pr_agent/tools/pr_code_suggestions_utils/helpers.py:164 | MaxScore is the largest score of a group |
| MarkdownUtils.IsValueNo | pr_agent/algo/markdown_utils/utils.py:11-17 | None and empty values are a no; a boolean exactly when false; a number exactly when 0; a text exactly when empty or, stripped and in any case, "no", "none" or "false" |
| MarkdownUtils.NumberTextNotNo | pr_agent/algo/markdown_utils/utils.py:14-16 | the text of a number is never a negative answer |
| MarkdownUtils.IsValueNoNormalised | pr_agent/algo/markdown_utils/utils.py:11-17 | normalising a text (strip, lower) before the test keeps the answer, except for an all-whitespace text, which is not a no while its normal form is |
| MarkdownUtils.EmphasizeHeader | pr_agent/algo/markdown_utils/utils.py:20-45 | a text without ": " comes back unchanged; one with it grows |
| MarkdownUtils.EmphasizeHeaderAtFirst | pr_agent/algo/markdown_utils/utils.py:23-37 | the split is at the first ": ": the emphasised head ends with the colon and the rest follows unchanged |
| MarkdownUtils.FirstMatchFrom | pr_agent/algo/markdown_utils/utils.py:56-57 | the first file whose stripped name is the relevant file, or none when no file matches |
| MarkdownUtils.RelevantLinesShape | pr_agent/algo/markdown_utils/utils.py:48-85 | "" when no file matches, or when the match has no content and nothing is selected from its patch; otherwise a fenced code block |
| MarkdownUtils.FencedShape | pr_agent/algo/markdown_utils/utils.py:79 | a fenced block opens with "```" and ends with "\n```" |
| MarkdownUtils.NewSideTextAppend | pr_agent/algo/markdown_utils/utils.py:68-71 | the fallback treats each line on its own: two runs of lines give their texts in order |
| MarkdownUtils.NewSideTextOne | pr_agent/algo/markdown_utils/utils.py:69-71 | a '-' line contributes nothing; any other its text after the first character and a newline |
| MarkdownUtils.HeadFileExcerpt | pr_agent/algo/markdown_utils/utils.py:73-79 | with new content, the excerpt is the lines from start to end joined by newlines, fenced |
| MarkdownUtils.NewSide | pr_agent/algo/markdown_utils/utils.py:67-71 | the fallback loop gives NewSideText |
| MarkdownUtils.ExtractRelevantLinesStr | pr_agent/algo/markdown_utils/utils.py:48-85 | the loops give RelevantLines |
| MarkdownUtils.TextField | pr_agent/algo/markdown_utils/utils.py:89 | a missing key gives ""; a text value is stripped; any other value raises |
| MarkdownUtils.FormatTodoItem | pr_agent/algo/markdown_utils/utils.py:88-104 | succeeds exactly for a dictionary item with a provider, a text file name, and content that is empty or text; every failure is AttributeError |
| MarkdownUtils.FormatTodoItemShape | pr_agent/algo/markdown_utils/utils.py:88-104 | a non-dictionary item or no provider raises; otherwise the file reference, then ": " and the stripped content exactly when the content is not empty |
| MarkdownUtils.Shown | pr_agent/algo/markdown_utils/utils.py:109-125 | a list shows its first five items, all of a shorter list |
| MarkdownUtils.TodoItemsText | pr_agent/algo/markdown_utils/utils.py:107-130 | with GFM a list renders inside "<ul>" and "</ul>"; a single item renders when format_todo_item does |
| MarkdownUtils.TodoItemsFirstFive | pr_agent/algo/markdown_utils/utils.py:113-125 | lists that agree on their first five items render alike |
| MarkdownUtils.FormatTodoItems | pr_agent/algo/markdown_utils/utils.py:107-130 | the loop gives TodoItemsText |
| MarkdownUtils.TodoEntriesErrorStays | pr_agent/algo/markdown_utils/utils.py:116-127 | once an item raises, the whole list raises that error |
| ReviewFormatter.BlockTitle | pr_agent/algo/markdown_utils/review_formatter.py:27-32 | sections whose titles differ in the first character cannot be mistaken for each other |
| ReviewFormatter.ProcessEstimatedEffort | pr_agent/algo/markdown_utils/review_formatter.py:10-33 | the row starts with the lead and "Estimated effort to review" and ends with the effort shown and the row's close |
| ReviewFormatter.EffortOfNumber | pr_agent/algo/markdown_utils/review_formatter.py:13-15 | a number, as an integer or as its digits, is its own effort |
| ReviewFormatter.EffortFirstField | pr_agent/algo/markdown_utils/review_formatter.py:17-18 | a text starting with a number and a comma has that number as its effort |
| ReviewFormatter.EffortBars | pr_agent/algo/markdown_utils/review_formatter.py:22-25 | a positive effort shows the number, `v` blue bars and `max(0, 5 - v)` white ones: five bars when at most five |
| ReviewFormatter.RepeatChar | pr_agent/algo/markdown_utils/review_formatter.py:23-24 | `c * n` is `n` copies of `c` |
| ReviewFormatter.LegacyEffortBars | pr_agent/algo/markdown_utils/markdown_formatter.py:62-65 | with the one-character bars of this module, an effort from 1 to 5 shows five bars: `v` blue then white |
| ReviewFormatter.ProcessRelevantTests | pr_agent/algo/markdown_utils/review_formatter.py:35-50 | "No relevant tests" exactly when the normalised answer is a no, "PR contains tests" otherwise |
| ReviewFormatter.RelevantTestsOfText | pr_agent/algo/markdown_utils/review_formatter.py:37-49 | for a text with more than whitespace the section answers as is_value_no on the text; an all-whitespace text counts as no tests |
| ReviewFormatter.Estimate | pr_agent/algo/markdown_utils/review_formatter.py:56-60 | a non-dictionary, a missing key or a non-text estimate raises; otherwise every 'm' becomes " minutes" |
| ReviewFormatter.ProcessContributionTime | pr_agent/algo/markdown_utils/review_formatter.py:52-61 | the row succeeds exactly when all three estimates can be read, and ends with best, average and worst case in that order |
| ReviewFormatter.ProcessSecurityConcerns | pr_agent/algo/markdown_utils/review_formatter.py:63-81 | "No security concerns identified" exactly for a no; otherwise the stripped text with its header emphasised; a value that is not text raises |
| ReviewFormatter.ProcessTodoSections | pr_agent/algo/markdown_utils/review_formatter.py:83-101 | "No TODO sections" with the done mark for a no; otherwise the heading and the formatted items, raising when they do |
| ReviewFormatter.TodoMarkOnlyForNo | pr_agent/algo/markdown_utils/review_formatter.py:88-96 | the two modules' to-do rows (with pr_agent/algo/markdown_utils/markdown_formatter.py:128,136) differ only in the mark of a no |
| ReviewFormatter.IssueFields | pr_agent/algo/markdown_utils/review_formatter.py:122-130 | an issue is read only when it is a non-empty dictionary whose fields can be read; then file, header and content are the stripped fields |
| ReviewFormatter.IssueHeader | pr_agent/algo/markdown_utils/review_formatter.py:126-127 | "possible bug" in any case becomes "Possible Issue"; any other header is kept |
| ReviewFormatter.IssueShowsHeader | pr_agent/algo/markdown_utils/review_formatter.py:138-150 | every issue read shows its header in bold |
| ReviewFormatter.IssuesTextAppend | pr_agent/algo/markdown_utils/review_formatter.py:120-153 | issues render one by one: two runs give their texts in order |
| ReviewFormatter.SkippedIssue | pr_agent/algo/markdown_utils/review_formatter.py:122-123 | an empty issue or one that is not a dictionary adds nothing |
| ReviewFormatter.KeyIssues | pr_agent/algo/markdown_utils/review_formatter.py:103-156 | "No major issues detected" exactly for a no; otherwise the focus heading and every issue that renders; iterating a value that is not a list, text or dictionary raises |
| ReviewFormatter.FormatIssue | pr_agent/algo/markdown_utils/review_formatter.py:121-153 | the loop body gives IssueText, calling the excerpt extraction |
| ReviewFormatter.ProcessKeyIssues | pr_agent/algo/markdown_utils/review_formatter.py:103-156 | the method gives KeyIssues |
| ReviewFormatter.RenderIssues | pr_agent/algo/markdown_utils/review_formatter.py:120-153 | the loop gives IssuesText |
| ReviewFormatter.ThemesErrorAt | pr_agent/algo/markdown_utils/review_formatter.py:170-172 | a theme that is not a dictionary makes the whole list raise |
| ReviewFormatter.ThemesErrorStays | pr_agent/algo/markdown_utils/review_formatter.py:170-181 | once a prefix of the themes raises, the whole list raises |
| ReviewFormatter.TextThemesRaise | pr_agent/algo/markdown_utils/review_formatter.py:163-172 | a non-empty text or dictionary of themes raises on its first element |
| ReviewFormatter.CanBeSplit | pr_agent/algo/markdown_utils/review_formatter.py:158-182 | "No multiple PR themes" for a falsy value or a one-theme list; "" when anything raises, a text like "No" included; otherwise the heading and a details block per theme |
| ReviewFormatter.ListFiles | pr_agent/algo/markdown_utils/review_formatter.py:175-176 | the inner loop gives FileLines |
| ReviewFormatter.FormatTheme | pr_agent/algo/markdown_utils/review_formatter.py:171-178 | the loop body gives ThemeText |
| ReviewFormatter.ProcessCanBeSplit | pr_agent/algo/markdown_utils/review_formatter.py:158-182 | the method gives CanBeSplit |
| ReviewFormatter.RenderThemes | pr_agent/algo/markdown_utils/review_formatter.py:170-178 | the loop gives ThemesText, ending at the first theme that raises |
| SuggestionFormatter.QuotedFileName | pr_agent/algo/markdown_utils/suggestion_formatter.py:24 | a file name quoted with backticks or either kind of quote loses exactly its quotes |
| SuggestionFormatter.LinkSplit | pr_agent/algo/markdown_utils/suggestion_formatter.py:32 | `[caption](url)` splits at "](" into exactly two parts |
| SuggestionFormatter.MarkdownLinkCell | pr_agent/algo/markdown_utils/suggestion_formatter.py:31-38 | a markdown link `[caption](url)` becomes an HTML link to url showing caption |
| SuggestionFormatter.PlainLineCell | pr_agent/algo/markdown_utils/suggestion_formatter.py:37-38 | a relevant line without "](" is shown as text |
| SuggestionFormatter.LineLength | pr_agent/algo/markdown_utils/suggestion_formatter.py:55 | the first line of a non-empty text, its break included, is non-empty and inside the text |
| SuggestionFormatter.LineLengthSpec | pr_agent/algo/markdown_utils/suggestion_formatter.py:55 | the first line ends at the first "\n", "\r\n" or lone "\r", as `splitlines(True)` cuts lines for `textwrap.indent`: no break lies inside it, and it ends with one unless it is the whole text |
| SuggestionFormatter.BlankIffStripEmpty | pr_agent/algo/markdown_utils/suggestion_formatter.py:55 | a line is left unindented exactly when it strips to nothing |
| SuggestionFormatter.IndentAppend | pr_agent/algo/markdown_utils/suggestion_formatter.py:55 | indenting works line by line: text cut after a "\n", or after a "\r" the rest does not continue with "\n", indents as its two parts |
| SuggestionFormatter.IndentNothing | pr_agent/algo/markdown_utils/suggestion_formatter.py:55 | an empty prefix leaves the text as it is |
| SuggestionFormatter.FencedBlock | pr_agent/algo/markdown_utils/suggestion_formatter.py:54-55 | an indented fenced block keeps its fences, each behind the prefix, around the indented code |
| SuggestionFormatter.ValueLine | pr_agent/algo/markdown_utils/suggestion_formatter.py:58-61 | a value that is not a dictionary gets a line ending in two spaces and a break |
| SuggestionFormatter.ReflowLocal | pr_agent/algo/markdown_utils/suggestion_formatter.py:62-64 | stripping line breaks off the whole text stops at the space before the line's own break |
| SuggestionFormatter.ListStepLocal | pr_agent/algo/markdown_utils/suggestion_formatter.py:47-64 | the rewrite of the trailing break never reaches earlier entries |
| SuggestionFormatter.ListLinesConcat | pr_agent/algo/markdown_utils/suggestion_formatter.py:46-64 | the list is the entries' own texts one after another |
| SuggestionFormatter.SuggestionShape | pr_agent/algo/markdown_utils/suggestion_formatter.py:18-67 | with GFM and a relevant line: a table ending with a rule; otherwise the entries' texts and a final break |
| SuggestionFormatter.RenderTableRows | pr_agent/algo/markdown_utils/suggestion_formatter.py:21-42 | the table loop gives TableRows |
| SuggestionFormatter.AppendTableRow | pr_agent/algo/markdown_utils/suggestion_formatter.py:22-42 | one entry's row is appended |
| SuggestionFormatter.TableRowsNext | pr_agent/algo/markdown_utils/suggestion_formatter.py:21-42 | one more entry appends its row |
| SuggestionFormatter.RenderCodeBlocks | pr_agent/algo/markdown_utils/suggestion_formatter.py:53-56 | the inner loop gives the code blocks in the dictionary's order |
| SuggestionFormatter.RenderCodeBlock | pr_agent/algo/markdown_utils/suggestion_formatter.py:54-56 | one key's fenced, indented code block |
| SuggestionFormatter.CodeBlocksNext | pr_agent/algo/markdown_utils/suggestion_formatter.py:53-56 | one more key appends its block |
| SuggestionFormatter.RenderListLines | pr_agent/algo/markdown_utils/suggestion_formatter.py:46-64 | the list loop gives ListLines |
| SuggestionFormatter.ParseCodeSuggestion | pr_agent/algo/markdown_utils/suggestion_formatter.py:8-67 | the method gives SuggestionMarkdown |
| MarkdownConverter.Lookup | pr_agent/algo/markdown_utils/markdown_converter.py:57 | a value is found exactly when the key is present |
| MarkdownConverter.WithoutSpec | pr_agent/algo/markdown_utils/markdown_converter.py:57 | removing a key removes exactly its entry and keeps the keys distinct |
| MarkdownConverter.ReviewDict.Pop | pr_agent/algo/markdown_utils/markdown_converter.py:57 | `pop` returns the value under the key, or the default, and removes the key in place |
| MarkdownConverter.TakeOut | pr_agent/algo/markdown_utils/markdown_converter.py:57 | the loop gives the entries without the key and the value or the default |
| MarkdownConverter.Capitalize | pr_agent/algo/markdown_utils/markdown_converter.py:62 | the length is kept and only case changes |
| MarkdownConverter.KeyNice | pr_agent/algo/markdown_utils/markdown_converter.py:62 | underscores become spaces and nothing else but case changes |
| MarkdownConverter.EmojiOf | pr_agent/algo/markdown_utils/markdown_converter.py:26-63 | the emoji of a known heading, "" otherwise |
| MarkdownConverter.Append | pr_agent/algo/markdown_utils/markdown_converter.py:65-90 | a section's text is appended, or its error passed on |
| MarkdownConverter.StepExtends | pr_agent/algo/markdown_utils/markdown_converter.py:58-90 | every section only appends to what was written |
| MarkdownConverter.EmptySkipped | pr_agent/algo/markdown_utils/markdown_converter.py:59-61 | an empty value is skipped unless its key is can_be_split or key_issues_to_review |
| MarkdownConverter.SplitNeedsGfm | pr_agent/algo/markdown_utils/markdown_converter.py:77-81 | without GFM the split section adds nothing |
| MarkdownConverter.SectionsExtend | pr_agent/algo/markdown_utils/markdown_converter.py:58-90 | the sections extend what was written before them |
| MarkdownConverter.SectionsErrorStays | pr_agent/algo/markdown_utils/markdown_converter.py:58-90 | once a section raises, the rest of the loop does not run |
| MarkdownConverter.Header | pr_agent/algo/markdown_utils/markdown_converter.py:43-47 | the regular heading, or the incremental one naming the commits |
| MarkdownConverter.ConvertToMarkdown | pr_agent/algo/markdown_utils/markdown_converter.py:48-49 | no review or an empty one gives "" |
| MarkdownConverter.ConvertShape | pr_agent/algo/markdown_utils/markdown_converter.py:43-95 | a rendered review starts with the preamble and, with GFM, ends by closing the table |
| MarkdownConverter.TodoSummaryNotRendered | pr_agent/algo/markdown_utils/markdown_converter.py:57 | the to-do summary is never rendered as a section |
| MarkdownConverter.RenderTicket | pr_agent/algo/markdown_utils/markdown_converter.py:69-70 | the ticket entry gives Step |
| MarkdownConverter.RenderSplit | pr_agent/algo/markdown_utils/markdown_converter.py:77-81 | the split entry gives Step |
| MarkdownConverter.RenderKeyIssues | pr_agent/algo/markdown_utils/markdown_converter.py:82-83 | the key-issues entry gives Step |
| MarkdownConverter.RenderEntry | pr_agent/algo/markdown_utils/markdown_converter.py:58-90 | the loop body gives Step |
| MarkdownConverter.RenderSections | pr_agent/algo/markdown_utils/markdown_converter.py:58-90 | the loop gives Sections, ending at the first section that raises |
| MarkdownConverter.ConvertToMarkdownV2 | pr_agent/algo/markdown_utils/markdown_converter.py:13-95 | the result is ConvertToMarkdown of the review; a non-empty review loses its to-do summary in place |
| MarkdownConverter.RenderPreamble | pr_agent/algo/markdown_utils/markdown_converter.py:43-55 | the heading, the optional introduction and, with GFM, the table's opening |
| MarkdownConverter.RenderDocument | pr_agent/algo/markdown_utils/markdown_converter.py:58-93 | the loop and the table's end after the preamble |

## Left out

- Network, I/O, logging, clocks and the LLM calls are left out. Provider answers (`.gitmodules`, compare results, the diff files a provider returns, whether a batch of comments is accepted) and the outcome of each model call are parameters.
- Library calls become uninterpreted parameters or oracles:
  - the tokenizer `count_tokens` is a `string -> nat`;
  - `difflib.get_close_matches` is a list of matches;
  - `html.escape`, `textwrap.dedent`, `urllib.parse.urlparse`, `str()` of a value, byte decoding with an encoding, and the link a provider builds for a line are functions.
  
  Nothing is proved about their internals.
- Strings are `seq<char>`, and some Python string operations are narrowed:
  - `strip`, `lower`, `upper`, `isdigit` and `isnumeric` are ASCII-only: whitespace is " \t\n\r\x0b\x0c", only A–Z/a–z change case, only 0–9 are digits. For example, `'²'.isnumeric()` is true in Python, which makes `int()` raise in `_process_estimated_effort`; the model does not see that case.
  - `splitlines` and `textwrap.indent` break lines only at "\n", "\r" and "\r\n". Python also breaks at "\v", "\f", "\x1c"–"\x1e", "\x85", U+2028 and U+2029.
- Text.ParseInt: models `int()` on an optionally signed run of ASCII digits. It does not accept underscores between digits or non-ASCII digits.
- Tokens.ClipTokens: the kept length is the exact floor of 9·len·max / (10·count). The source computes `int(0.9 * len/count * max)` in floating point, which can differ by one at boundaries.
- Dictionary iteration order: `Value.Dict` is a map. Where the source iterates a dictionary, the order comes from a `keyOrder` parameter that is not tied to insertion order. Places where the model owns the dictionary keep their order explicitly: the tool registry, the review dictionary and `file_dict` in the compressed diff.
- CodeSuggestions.DualPublishing: replacing an empty `existing_code` by `improved_code` is modelled on the selected copies. The source mutates the shared suggestion dictionaries in place (pr_agent/tools/pr_code_suggestions.py:230-233), so the caller's data changes too; that aliasing is not modelled.
- TextUtils.FixKeyValue: the YAML parsing of the value (`yaml.safe_load`) is left out. The model stops at the stripped, upper-cased key and the stripped value.
- Global settings writes (`get_settings().set(...)`, such as `config.extra_statistics` in the compliance formatter, and the settings `update_settings_from_args` makes) are not performed. The settings are returned as data or dropped.
- Values compare structurally. Python's `1 == True` does not hold between `Int(1)` and `Bool(true)`; this shows, for example, in the duplicate-summary check.
- PatchProcessing.ExtendPatch: the fallback that returns the original patch when `PatchProcessor` raises is not modelled. The modelled processor cannot raise, so the fallback is never taken.
- Emoji literals are opaque constants. The mojibake in review_formatter.py and the real characters in markdown_formatter.py are kept apart (`DoneMark`, `LegacyDoneMark`, and the two pairs of effort bars).
- The legacy duplicates in pr_agent/algo/markdown_utils/markdown_formatter.py are not modelled separately. These are `is_value_no`, `emphasize_header`, the ticket aggregation, `process_can_be_split` and `format_todo_items`, each with the same logic as the function modelled from markdown_utils/utils.py, compliance_formatter.py or review_formatter.py. Only the differences get their own lemmas: the effort bars and the to-do mark.
- Parsed values have no floating-point case. A score is an integer, a boolean or a text, and a float score from the model is not modelled.
- SuggestionHelpers.SummaryOf: it reads a score that is not an integer or a boolean as a failure, and the summary's score is an integer. In the source, text scores fail only when compared with numbers in `max` or `sorted` (pr_agent/tools/pr_code_suggestions_utils/helpers.py:163-167). A group of text scores only is ordered as text there, and `int()` later reads a text of digits. The model does not capture that text ordering.
- SuggestionHelpers.SummarizedLayout: the table rows are not rendered (pr_agent/tools/pr_code_suggestions_utils/helpers.py:168-244). That leaves out the HTML cells, the `difflib` diff of the code, the line link and the score text. A suggestion that reads but lacks a field the rows use ("relevant_file", "existing_code" and others) also ends in the empty text in the source. In the model its layout is still `Table`.
- Files outside the core are not part of this model: the git providers' HTTP clients, the LLM handlers and agents, YAML/JSON repair, `load_large_diff` and the servers.

## Findings

| source | as written | input that shows it | evidently intended | confidence | as-written member | corrected member |
|---|---|---|---|---|---|---|
| pr_agent/algo/git_patch_processing.py:408-409 | after the loop, the last hunk is flushed only `if match and new_content_lines` | a patch whose last hunk only deletes: "@@ -1,1 +0,0 @@" then "-x" renders as "" | the last hunk is shown with its `__old hunk__` view, as earlier hunks are | not executed | DualView.TrailingDeletionHunkDropped | DualView.TrailingDeletionHunkShown |
| pr_agent/algo/git_patch_processing.py:477 | the left side selects a line when `start1 <= selected_lines_num + start1 <= line_end`, and the first comparison always holds | hunk "@@ -9,5 +9,5 @@", lines 10 to 12, side "left": old line 9 is selected | the line is selected only when `line_start <= selected_lines_num + start1 <= line_end` | not executed | DualView.LeftSelectionIgnoresStart | DualView.LeftSelectionCorrected |
| pr_agent/algo/pr_processing.py:293-305 | `get_pr_multi_diffs` calls `handle_patch_deletions`, `decouple_and_convert_to_hunks_with_lines_numbers` and `add_ai_summary_top_patch`, and none of them is imported (lines 8-19) | any pull request whose extended diff does not fit and that has a file with a patch raises `NameError` | the helpers are imported from git_patch_processing.py and diff_processing.py | not executed | PrProcessing.AsWrittenNameError | PrProcessing.MultiDiffsBudget |

The paths that render diffs for a prompt (`pr_generate_extended_diff`, the compressed diff, `get_pr_multi_diffs` and `extract_relevant_lines_str`) use the dual view as written, so they match what the program produces. The corrected revisions exist only for the lemmas above.
