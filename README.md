# Maintainer dashboard triage logic, in Dafny

This project models the logic of the New Relic One open-source maintainer
dashboard (`nr1-ospo`). The dashboard shows a maintainer which issues and pull
requests in their repositories still need attention from the company.

The project models these parts:

- **Search strings.** How the dashboard turns a profile into GitHub search
  strings (new items, definitely stale, maybe stale). This is done both with
  ignored labels (`graphql/GithubQueries.js`) and without them (`githubData.js`).
  This part also covers how GitHub splits those strings into qualifiers.
- **Classification.** How the maybe-stale results are filtered by their timeline
  comments, and how counts and item lists are merged (`getGithubData`).
- **Batched status query.** How the repository status page builds one aliased
  query for many repositories, and how it pages through the results until no
  repository has a next page (`index.js`). The GitHub API is an oracle: a
  sequence of responses, one per round.
- **Settings forms.** The two settings forms (`components/settings.js` and the
  older `settings.js`). This covers:
  - the comma/space tokenizer and the `owner/name` check;
  - the "create" merges of the list boxes;
  - form validation and its order;
  - the 20-character token check;
  - the "latest check wins" counter;
  - the conversion of the stale time between minutes and milliseconds.

  Each form is a class whose methods update its fields.
- **Profile editor.** The controlled profile editor (`components/profileEditor.js`):
  each handler's single-field change, the label suggestions and the stale-time box.
- **Dashboard root.** The dashboard root (`components/dashboard.js`): which screen
  it renders, the props it hands the data view, and how reloading and switching
  profiles change its state.
- **Label chips and the issue table.** The label chip (both `issueLabel.js`): the
  default-label colour table and the light/dark text choice. The issue table
  (both `issueTable.js`):
  - the distinct labels found on the items;
  - the label filter's options;
  - the row filter value;
  - the sort icons;
  - the type logo.

Files that exist twice in the repository (`settings.js`, `issueLabel.js`,
`issueTable.js` and the three copies of the splitters) behave the same. One set of
definitions models both copies, and the table cites some members against each copy.
Where the older form differs, the model has a separate member or constructor.
The differences are the empty initial time box and the empty default on restore.

Modules:

- Basics:
  - `Wrappers`: Option and Result.
  - `Seqs`: dedup, prepend-new, join.
- JavaScript string and number semantics the code relies on:
  - `JsText`: `trim`, `substring`, the separator split, `parseInt(…, 16)`.
  - `JsNumber`: `parseFloat`, `Number#toString`, `isNaN`, the time units.
- `SearchTerms`: how GitHub splits a search string into qualifiers.
- Models of the core files, one module each: `GithubData`, `GithubQueries`,
  `StatusQuery`, `Pagination`, `InputParsing`, `SettingsForm`, `ProfileEditor`,
  `Dashboard`, `IssueLabel`, `IssueTable`.

## Model

| member | source | states |
|---|---|---|
| GithubData.RepoClauses | nerdlets/maintainer-dashboard/githubData.js:133 | one `repo:<r>` clause per repository, in input order |
| GithubData.UserClauses | nerdlets/maintainer-dashboard/githubData.js:133-135 | one `-author:<u> <commenter><u>` clause per user, in input order |
| GithubData.NewSearchTerms | nerdlets/maintainer-dashboard/githubData.js:132-136 | read as GitHub splits it, the new-items search is the `repo:` clauses, then `-author:u`, `-commenter:u` per user, then `is:open` |
| GithubData.StalePrefixTerms | nerdlets/maintainer-dashboard/githubData.js:138-149 | the stale searches read as the repositories, then `-author:u`, `commenter:u` (positive) per user, then `is:open` and the rest |
| GithubData.DefStaleSearchTerms | nerdlets/maintainer-dashboard/githubData.js:138-142 | the definitely-stale search reads as the shared prefix followed by `is:open`, `updated:<=ISO(date)` |
| GithubData.MaybeStaleSearchTerms | nerdlets/maintainer-dashboard/githubData.js:144-150 | the maybe-stale search ends with `is:open`, `updated:>ISO(date)`, `created:<=ISO(date)`, with one date in both |
| GithubData.StaleSearchesSharePrefix | nerdlets/maintainer-dashboard/githubData.js:138-150 | both stale searches begin with the same text, up to and including `is:open` |
| GithubData.RequestsShareOneCutoff | nerdlets/maintainer-dashboard/githubData.js:152-167 | one cut-off instant feeds both stale searches and the `timeSince` variable |
| GithubData.KeepStale | nerdlets/maintainer-dashboard/githubData.js:174-180 | the filter succeeds iff every node has a timeline. Each kept item is a node whose every company comment is no newer than the cut-off, and every such node is kept |
| GithubData.KeepStaleConcat | nerdlets/maintainer-dashboard/githubData.js:174-180 | filtering keeps order: filtering a concatenation concatenates the filtered parts |
| GithubData.EmptyTimelineKept | nerdlets/maintainer-dashboard/githubData.js:175 | an item with an empty timeline window is always kept |
| GithubData.OnlyRecentCompanyCommentsExclude | nerdlets/maintainer-dashboard/githubData.js:175-178 | comments without author, by other users, and non-comment entries never exclude an item |
| GithubData.RecentCompanyCommentDrops | nerdlets/maintainer-dashboard/githubData.js:175-178 | one company comment newer than the cut-off drops the item |
| GithubData.Classify | nerdlets/maintainer-dashboard/githubData.js:181-195 | new items are the fetched nodes unchanged. `newSearchCount` is the larger of `issueCount` and the node count. Stale items are the definite nodes followed by the kept ones. `staleSearchCount` is the larger of the two definite counts plus the kept count, so each count is at least the length of its list |
| GithubData.Max | nerdlets/maintainer-dashboard/githubData.js:182-185 | `Math.max`: at least both arguments and equal to one of them |
| GithubData.GetGithubData | nerdlets/maintainer-dashboard/githubData.js:152-196 | at the cut-off `now - staleTime`: it fails iff some maybe-stale node has no timeline window; otherwise the new items are the new search's nodes and their count is the larger of the reported count and the number fetched; the stale items are the definitely-stale nodes followed by maybe-stale nodes with no company comment after the cut-off, every such node among them, and the stale count adds the kept nodes to the larger of the definitely-stale count and its node count |
| GithubData.ClassifyExample | nerdlets/maintainer-dashboard/githubData.js:171-195 | a worked case: an old company comment and an outsider's or author-less comment keep an item, and a recent company comment drops it |
| GithubQueries.LabelClauses | nerdlets/maintainer-dashboard/graphql/GithubQueries.js:152 | one `-label:<l>` per ignored label, the name inserted verbatim |
| GithubQueries.NewSearchTerms | nerdlets/maintainer-dashboard/graphql/GithubQueries.js:149-153 | for space-free names the new search reads as repositories, then user pairs, then `-label:l` per label, then `is:open` |
| GithubQueries.DefStaleSearchTerms | nerdlets/maintainer-dashboard/graphql/GithubQueries.js:155-161 | the definitely-stale search reads as repositories, `-author:u commenter:u` per user, labels, `is:open`, `updated:<=ISO(date)` |
| GithubQueries.MaybeStaleSearchTerms | nerdlets/maintainer-dashboard/graphql/GithubQueries.js:163-171 | the maybe-stale search ends with `is:open`, `updated:>ISO(date)`, `created:<=ISO(date)` with the same date |
| GithubQueries.StaleSearchesSharePrefix | nerdlets/maintainer-dashboard/graphql/GithubQueries.js:155-171 | the two stale strings are identical up to and including `is:open` |
| GithubQueries.NoLabelsAddOneSpace | nerdlets/maintainer-dashboard/graphql/GithubQueries.js:149-153 | with no labels the label-aware new search is the label-free one with one extra space before `is:open` |
| GithubQueries.NoLabelsSameTerms | nerdlets/maintainer-dashboard/graphql/GithubQueries.js:150-152 | that extra space changes nothing GitHub reads: an empty group is never an error |
| GithubQueries.SingleLabelGroup | nerdlets/maintainer-dashboard/graphql/GithubQueries.js:152 | one label gives the group `-label:` followed by the name verbatim |
| GithubQueries.SpacedLabelSplits | nerdlets/maintainer-dashboard/graphql/GithubQueries.js:149-153 | a label name with a space is read as `-label:` of its first word plus a free text word |
| GithubQueries.HelpWantedIsSplit | nerdlets/maintainer-dashboard/graphql/GithubQueries.js:152 | ignoring the default label `help wanted` sends `-label:help` and the bare word `wanted` |
| GithubQueries.QuotedLabelClauses | nerdlets/maintainer-dashboard/graphql/GithubQueries.js:152 | the corrected label group: one `-label:"<l>"` per label, in order |
| GithubQueries.QuotedNewSearchTerms | nerdlets/maintainer-dashboard/graphql/GithubQueries.js:149-153 | with quoting, every quote-free label, spaces and all, is one qualifier, in input order |
| GithubQueries.QuotedDefStaleSearchTerms | nerdlets/maintainer-dashboard/graphql/GithubQueries.js:155-161 | the corrected definitely-stale search reads as the groups with one qualifier per label |
| GithubQueries.QuotedMaybeStaleSearchTerms | nerdlets/maintainer-dashboard/graphql/GithubQueries.js:163-171 | the corrected maybe-stale search reads the same way, with one date in both bounds |
| GithubQueries.HelpWantedQuoted | nerdlets/maintainer-dashboard/graphql/GithubQueries.js:158-159 | with quoting, `help wanted` is the single qualifier `-label:"help wanted"` |
| StatusQuery.LastSegment | nerdlets/maintainer-dashboard/index.js:25-26 | `split('/').pop()` is the longest suffix without `/`, preceded by `/` when shorter than the input |
| StatusQuery.ReplaceDashes | nerdlets/maintainer-dashboard/index.js:27 | every `-` becomes `_` and every other character stays |
| StatusQuery.NormalizeRepoName | nerdlets/maintainer-dashboard/index.js:23-28 | the alias holds neither `/` nor `-` |
| StatusQuery.NormalizeOwnerName | nerdlets/maintainer-dashboard/index.js:23-28 | for `owner/name` the alias is `name` with dashes replaced |
| StatusQuery.SameNameSameAlias | nerdlets/maintainer-dashboard/index.js:23-28 | repositories of different owners with the same name get the same alias |
| StatusQuery.SearchArguments | nerdlets/maintainer-dashboard/index.js:35 | the text after the alias starts with `:` |
| StatusQuery.SearchQueryKey | nerdlets/maintainer-dashboard/index.js:30-34 | the key is the normalized name plus the suffix, and the query text starts with that key followed by `:` |
| StatusQuery.AfterIffToken | nerdlets/maintainer-dashboard/index.js:35-37 | the query is the cursor-less query with `after:"<token>"` inserted iff a token is given |
| StatusQuery.TokenAt | nerdlets/maintainer-dashboard/index.js:111 | `pageTokens[i]` exists iff tokens are given and i is in range |
| StatusQuery.FilterRepos | nerdlets/maintainer-dashboard/index.js:111 | the position filter never lengthens the list and keeps it whole when every position passes |
| StatusQuery.IssueQueries | nerdlets/maintainer-dashboard/index.js:111-123 | one entry per valid repository: an issue search with its cursor iff that position wants issues |
| StatusQuery.PrQueries | nerdlets/maintainer-dashboard/index.js:124-136 | as written: the filtered repositories, each read against the token at its position in the filtered list |
| StatusQuery.QueryTexts | nerdlets/maintainer-dashboard/index.js:137-141 | one text per present search, in order: the k-th text is the query of the k-th present entry, and absent entries contribute nothing |
| StatusQuery.KeyAt | nerdlets/maintainer-dashboard/index.js:142 | `queries[i] && queries[i].key` is present iff that entry is a search |
| StatusQuery.FromEntries | nerdlets/maintainer-dashboard/index.js:142 | `Object.fromEntries` has exactly the given keys |
| StatusQuery.FromEntriesAt | nerdlets/maintainer-dashboard/index.js:142 | without repeated keys, each key maps to the value at its position |
| StatusQuery.StatusMeta | nerdlets/maintainer-dashboard/index.js:142 | `meta` has one entry per repository |
| StatusQuery.StatusMetaAt | nerdlets/maintainer-dashboard/index.js:142 | without repeated repositories, each gets the aliases at its own position |
| StatusQuery.KeyOfSearch | nerdlets/maintainer-dashboard/index.js:32 | a search's alias is the normalized repository name followed by its suffix |
| StatusQuery.MakeStatusQuery | nerdlets/maintainer-dashboard/index.js:44-158 | the document's `meta` is keyed by exactly the repositories |
| StatusQuery.FragmentIffUsed | nerdlets/maintainer-dashboard/index.js:145-146 | each fragment definition is in the document iff at least one search of its kind is |
| StatusQuery.QueryTextsConcat | nerdlets/maintainer-dashboard/index.js:137-141 | filtering and mapping the issue searches concatenated with the pull-request searches gives the issue texts followed by the pull-request texts |
| StatusQuery.DocumentSearches | nerdlets/maintainer-dashboard/index.js:137-155 | the document ends with `query {`, the present issue searches then the present pull-request searches joined by newlines, and the rate-limit block |
| StatusQuery.FirstRoundTexts | nerdlets/maintainer-dashboard/index.js:111-141 | on the first round the document's searches are every repository's issue search in input order, then every repository's pull-request search, all without a cursor |
| StatusQuery.FirstRound | nerdlets/maintainer-dashboard/index.js:111-136 | without tokens every repository gets one issue and one pull-request search, both without cursor |
| StatusQuery.FirstRoundMeta | nerdlets/maintainer-dashboard/index.js:142 | on the first round `meta` maps each repository to its `_issue` and `_pr` aliases |
| StatusQuery.FirstRoundFragments | nerdlets/maintainer-dashboard/index.js:145-146 | on the first round both fragments are present iff there is a repository |
| StatusQuery.LaterRoundIssues | nerdlets/maintainer-dashboard/index.js:111-123 | with one token per repository, each repository asks for its next issue page iff its issue cursor is set |
| StatusQuery.LaterRoundPrsAligned | nerdlets/maintainer-dashboard/index.js:124-136 | when every repository is still paging pull requests, each asks for its next page with its own cursor |
| StatusQuery.LaterRoundMetaAligned | nerdlets/maintainer-dashboard/index.js:142 | in that case `meta` gives each repository its own aliases |
| StatusQuery.PrPageDropped | nerdlets/maintainer-dashboard/index.js:124-142 | as written: when the first of two repositories stops paging pull requests, the second one's next page is never requested |
| StatusQuery.PrPageWrongCursor | nerdlets/maintainer-dashboard/index.js:124-136 | as written: with three repositories, the third is sent the second one's cursor |
| StatusQuery.NoPrAliasPast | nerdlets/maintainer-dashboard/index.js:142 | a repository whose position lies past the end of the filtered pull-request list is given no pull-request alias in `meta` |
| StatusQuery.PrQueriesFixed | nerdlets/maintainer-dashboard/index.js:124-136 | corrected: one entry per repository, read against that repository's own token |
| StatusQuery.IssueQueriesFixed | nerdlets/maintainer-dashboard/index.js:111-123 | corrected: one issue entry per repository, read against its own token |
| StatusQuery.MakeStatusQueryFixed | nerdlets/maintainer-dashboard/index.js:44-158 | the corrected document's `meta` is keyed by exactly the repositories |
| StatusQuery.FixedPagesEachRepo | nerdlets/maintainer-dashboard/index.js:111-142 | corrected: each repository asks for the next page of each kind iff its cursor of that kind is set. Its aliases say which were asked |
| StatusQuery.FixedAgreesWhenAligned | nerdlets/maintainer-dashboard/index.js:111-142 | on the first round, and while every repository pages pull requests, the code as written sends the corrected query |
| Pagination.MergePage | nerdlets/maintainer-dashboard/index.js:250-254 | the merge loop over the repositories computes the merge of every repository's aliases, in order |
| Pagination.MergeSpecErrStays | nerdlets/maintainer-dashboard/index.js:250-254 | once a merge step fails, the loop ends with that error |
| Pagination.AliasesOf | nerdlets/maintainer-dashboard/index.js:251-253 | a repository's aliases are exactly its truthy issue and PR names |
| Pagination.MergeAliasExtends | nerdlets/maintainer-dashboard/index.js:252-253 | a merge step keeps every alias, puts the earlier nodes first and leaves `pageInfo` unchanged |
| Pagination.ExtendsTrans | nerdlets/maintainer-dashboard/index.js:247-255 | keeping earlier nodes first carries over from round to round |
| Pagination.MergeOkIff | nerdlets/maintainer-dashboard/index.js:250-254 | merging succeeds iff every visited alias is in both the data so far and the page, and the result extends the data so far |
| Pagination.MergeNodes | nerdlets/maintainer-dashboard/index.js:247-255 | each alias's nodes become the old nodes followed by the page's nodes, once per alias |
| Pagination.MergeRepoNodes | nerdlets/maintainer-dashboard/index.js:251-253 | one repository's step appends the page's nodes to each of its aliases |
| Pagination.NextTokenIff | nerdlets/maintainer-dashboard/index.js:259-273 | a repository keeps a token iff one of its searches has a next page with a cursor. Each cursor is that search's `endCursor` when it has a next page, and null otherwise |
| Pagination.NextTokens | nerdlets/maintainer-dashboard/index.js:257-273 | one token result per repository, in order |
| Pagination.KeptRepos | nerdlets/maintainer-dashboard/index.js:274 | every repository with a token stays, and nothing else is added |
| Pagination.Present | nerdlets/maintainer-dashboard/index.js:275 | only present tokens are passed on |
| Pagination.KeptInStep | nerdlets/maintainer-dashboard/index.js:274-275 | the kept repositories and the present tokens line up: the k-th of each come from the same position |
| Pagination.PresentHaveCursor | nerdlets/maintainer-dashboard/index.js:266-272 | every token passed on has a cursor of at least one kind |
| Pagination.NextRoundAligned | nerdlets/maintainer-dashboard/index.js:274-275 | the next round gets one token per repository |
| Pagination.FetchStatus | nerdlets/maintainer-dashboard/index.js:230-280 | the `do … while` loop computes the paging specification over the oracle's responses |
| Pagination.AdvanceRound | nerdlets/maintainer-dashboard/index.js:247-275 | one pass of the loop body, after the `data` check: the first page is taken as it came and later pages are merged into the data so far; then the next tokens are read and only the repositories with a token stay |
| Pagination.FirstBadData | nerdlets/maintainer-dashboard/index.js:245-246 | a response without `data` aborts the fetch with an error naming the query |
| Pagination.FetchExtends | nerdlets/maintainer-dashboard/index.js:247-278 | from any round on, the final data extends the data so far |
| Pagination.FetchExtendsFirstPage | nerdlets/maintainer-dashboard/index.js:247 | a successful fetch extends the first page |
| Pagination.LastPageNoTokens | nerdlets/maintainer-dashboard/index.js:257-278 | when no search has a next page no repository remains, so the loop ends |
| Pagination.OneRound | nerdlets/maintainer-dashboard/index.js:235-279 | a single last page is the result as it came |
| Pagination.TokensOk | nerdlets/maintainer-dashboard/index.js:259-265 | the cursors can be read whenever every alias is in the page |
| JsText.SkipWhitespace | nerdlets/maintainer-dashboard/components/settings.js:40 | a greedy `\s*` consumes exactly the white-space run |
| JsText.TrimStart | nerdlets/maintainer-dashboard/components/settings.js:41 | the suffix from the first non-white-space character |
| JsText.TrimEnd | nerdlets/maintainer-dashboard/components/settings.js:41 | the prefix up to the last non-white-space character |
| JsText.TrimOfTrimmed | nerdlets/maintainer-dashboard/components/settings.js:41 | a string without white space at either end is its own trim |
| JsText.Substring | nerdlets/maintainer-dashboard/components/issueLabel.js:37-40 | `substring` never lengthens the string |
| JsText.SeparatorIndex | nerdlets/maintainer-dashboard/components/settings.js:40 | the first position at or after i where a separator starts |
| JsText.SplitSeparators | nerdlets/maintainer-dashboard/components/settings.js:40 | the split ends with a text piece. Every text piece is free of separators, and every captured piece is a comma followed only by white space |
| JsText.TrimCaptured | nerdlets/maintainer-dashboard/components/settings.js:40-41 | a captured `,\s*` trims to the bare comma |
| JsText.TokensAreListTokens | nerdlets/maintainer-dashboard/components/settings.js:40-42 | every surviving token is `","` or a non-empty run free of commas and white space |
| JsText.HexDigitValue | nerdlets/maintainer-dashboard/issueLabel.js:21-23 | a hex digit is worth less than 16 |
| JsText.HexPrefixLength | nerdlets/maintainer-dashboard/issueLabel.js:21-23 | `parseInt(…, 16)` reads exactly the leading hex digits |
| JsText.ParseTwoHexDigits | nerdlets/maintainer-dashboard/components/issueLabel.js:38-40 | two hex digits parse to 16·high + low, within 0..255 |
| JsNumber.Mul | nerdlets/maintainer-dashboard/components/dashboard.js:145-147 | NaN in gives NaN out, and finite operands multiply exactly |
| JsNumber.DivPositive | nerdlets/maintainer-dashboard/components/settings.js:161 | division by a positive unit is exact and keeps NaN and the infinities |
| JsNumber.NatToString | nerdlets/maintainer-dashboard/components/profileEditor.js:287 | `toString` of a natural number is its digits without leading zeros and denotes its value |
| JsNumber.ParseDecimalOfDigits | nerdlets/maintainer-dashboard/components/settings.js:250 | a digit run followed by text that cannot continue a number is read as that run's value |
| JsNumber.ParseFloatOfIntText | nerdlets/maintainer-dashboard/components/settings.js:250 | `parseFloat` of an integer's text, whatever non-numeric text follows, is that integer |
| JsNumber.ParseFloatOfNonNumber | nerdlets/maintainer-dashboard/components/settings.js:264 | `parseFloat` of empty or alphabetic text is NaN |
| JsNumber.ToStringOfInteger | nerdlets/maintainer-dashboard/components/profileEditor.js:287 | a whole number prints as its digits when its magnitude is below 1e21, and in exponent form (`1e+21`, `1.5e+22`) from there |
| JsNumber.IntegerText | nerdlets/maintainer-dashboard/components/settings.js:161 | a whole number's text is its plain digits iff its magnitude is below 1e21; from 1e21 on it is the exponent form, with a minus sign for negative numbers |
| JsNumber.IntegerTextParses | nerdlets/maintainer-dashboard/components/settings.js:161 | the text `toString` gives a whole number, plain or in exponent form, parses back to that number |
| JsNumber.IntegerTextMillis | nerdlets/maintainer-dashboard/components/settings.js:250 | the text of a whole number k, submitted with a unit, writes k units in milliseconds |
| JsNumber.TimeUnitValues | nerdlets/maintainer-dashboard/components/settings.js:512-518 | the units are 60000, 3600000, 86400000 and 604800000 ms, increasing, each a whole multiple of the previous one |
| JsNumber.DefaultStaleTimeIsTwoWeeks | nerdlets/maintainer-dashboard/components/settings.js:113-115 | the default 20160 minutes is 1209600000 ms, two weeks |
| JsNumber.MinutesRoundTrip | nerdlets/maintainer-dashboard/components/settings.js:161 | a whole number of minutes shown as minutes and parsed back in minutes gives the same milliseconds |
| InputParsing.SlashIndex | nerdlets/maintainer-dashboard/components/settings.js:42 | the position of the first `/`, or the length when there is none |
| InputParsing.IsRepoNameOfParts | nerdlets/maintainer-dashboard/components/settings.js:42 | two non-empty runs of `[A-Za-z0-9_.-]` around one `/` match the pattern |
| InputParsing.FilterRepoNames | nerdlets/maintainer-dashboard/components/settings.js:42 | keeps exactly the tokens that match `owner/name` |
| InputParsing.SplitRepositoryNames | nerdlets/maintainer-dashboard/components/settings.js:36-45 | no duplicates. Every result is a token that matches the `owner/name` pattern, and every matching token is in the result |
| InputParsing.SplitRepositoryNamesOrder | nerdlets/maintainer-dashboard/settings.js:37-46 | repository names keep the order of their first occurrence |
| InputParsing.CommaIsNoRepoName | nerdlets/maintainer-dashboard/components/profileEditor.js:31-40 | the captured comma never passes the pattern |
| InputParsing.SplitRepositoryNamesDropsComma | nerdlets/maintainer-dashboard/components/profileEditor.js:31-40 | `"a,b"` gives no repository names: the names lack an owner and the comma fails the pattern |
| InputParsing.SplitLogins | nerdlets/maintainer-dashboard/components/settings.js:56-65 | no duplicates, never an empty login, and every token of the input is kept |
| InputParsing.SplitLoginsOrder | nerdlets/maintainer-dashboard/settings.js:48-57 | logins keep the order of their first occurrence |
| InputParsing.TokensAroundComma | nerdlets/maintainer-dashboard/components/profileEditor.js:55-56 | `x,y` tokenizes to `x`, `,`, `y` |
| InputParsing.SplitLoginsKeepsComma | nerdlets/maintainer-dashboard/components/profileEditor.js:51-60 | `splitLogins("a,b")` is `["a", ",", "b"]`: the captured comma survives as a login |
| InputParsing.CreateOptionMessage | nerdlets/maintainer-dashboard/components/settings.js:374-380 | no parsed name gives the invalid-name text, one gives `Add repository <n>`, several give `Add repositories` with the names joined by `, ` |
| InputParsing.ChoiceNames | nerdlets/maintainer-dashboard/components/settings.js:423-429 | one name per chosen entry, in order, taking `.name` of an object entry and a string entry as it is |
| Seqs.Dedup | nerdlets/maintainer-dashboard/components/settings.js:38-44 | `[...new Set(xs)]` has no duplicates, holds only members of xs, and holds every member |
| Seqs.DedupKeepsFirstOccurrenceOrder | nerdlets/maintainer-dashboard/components/settings.js:38-44 | the set's entries appear in the order of their first occurrence in xs |
| Seqs.PrependNewMerges | nerdlets/maintainer-dashboard/components/settings.js:359-361 | `parsed.filter(n => !cur.includes(n)).concat(cur)` keeps cur as a suffix, puts only new parsed entries before it, and holds exactly the entries of both |
| Seqs.PrependNewIdempotent | nerdlets/maintainer-dashboard/components/settings.js:459-460 | merging the same parsed list twice gives the result of merging it once |
| JsNumber.IntTextParses | nerdlets/maintainer-dashboard/settings.js:185 | `parseFloat` of an integer's text is that integer |
| JsNumber.StaleTimeOfParsed | nerdlets/maintainer-dashboard/components/settings.js:250 | the stale time written is the parsed number times the unit |
| GithubQueries.QuotedSingleLabel | nerdlets/maintainer-dashboard/graphql/GithubQueries.js:149-153 | with quoting, one label gives the terms of the label-free search with one `-label:"l"` qualifier before `is:open` |
| SettingsForm.OutcomeStatus | nerdlets/maintainer-dashboard/components/settings.js:179-211 | a check is valid iff it succeeded, with its login and repositories. A 401 gives the authorization message, and any other failure the unknown-error message |
| SettingsForm.FormError | nerdlets/maintainer-dashboard/components/settings.js:260-267 | no error iff the PAT is valid, a repository is chosen and the time parses. Otherwise the first failing check in the order PAT, repositories, time |
| SettingsForm.EmptyTimeReported | nerdlets/maintainer-dashboard/settings.js:194-201 | with the older form's empty time box the time error is reported once PAT and repositories pass, and the default `20160` passes |
| SettingsForm.OrEmpty | nerdlets/maintainer-dashboard/components/settings.js:157-160 | a missing stored list restores as empty |
| SettingsForm.RestoreThenSubmit | nerdlets/maintainer-dashboard/components/settings.js:161 | a saved non-zero whole number of minutes, restored and submitted in minutes, writes the saved value back |
| SettingsForm.SubmitThenRestore | nerdlets/maintainer-dashboard/components/settings.js:250 | an integer number of minutes, submitted and restored, shows as typed. Zero is falsy and restores as the default |
| SettingsForm.WrittenMillis | nerdlets/maintainer-dashboard/settings.js:185 | submitting the text of k with a unit writes k units |
| SettingsForm.RestoreOfMinutes | nerdlets/maintainer-dashboard/settings.js:90 | a stored whole number of minutes is shown as that number, and zero or absent as the default |
| SettingsForm.Form.Components | nerdlets/maintainer-dashboard/components/settings.js:91-146 | the form starts empty, unchecked, in minutes with `20160` in the time box |
| SettingsForm.Form.Legacy | nerdlets/maintainer-dashboard/settings.js:59-75 | the older form starts the same but with an empty time box |
| SettingsForm.Form.StartCheck | nerdlets/maintainer-dashboard/components/settings.js:171-179 | a check bumps the counter, returns the new value as its tag and marks the PAT as testing. Nothing else changes |
| SettingsForm.Form.Complete | nerdlets/maintainer-dashboard/components/settings.js:183-211 | an outcome is applied iff its tag equals the current counter. Nothing else changes |
| SettingsForm.Form.Restore | nerdlets/maintainer-dashboard/components/settings.js:148-168 | stored lists are restored, a missing one as empty, and the time in minutes or the default. A stored token starts a check |
| SettingsForm.Form.HandlePatToken | nerdlets/maintainer-dashboard/components/settings.js:216-230 | a token under 20 characters is invalid and starts no check, leaving the counter. A longer one starts a check |
| SettingsForm.Form.HandlePatTokenGuarded | nerdlets/maintainer-dashboard/settings.js:153-167 | corrected: a short token also bumps the counter, so a pending check can no longer apply |
| SettingsForm.Form.HandlePatRemove | nerdlets/maintainer-dashboard/components/settings.js:233-236 | the token and its status are cleared |
| SettingsForm.Form.HandleSubmit | nerdlets/maintainer-dashboard/components/settings.js:239-257 | the submission carries the token, the three lists and `parseFloat(time) * unit` |
| SettingsForm.Form.OnCreateRepo | nerdlets/maintainer-dashboard/components/settings.js:357-362 | the parsed names not selected yet, followed by the selection unchanged |
| SettingsForm.Form.OnCreateLabel | nerdlets/maintainer-dashboard/components/settings.js:418-422 | the typed label is appended, even when already selected |
| SettingsForm.Form.OnChangeLabels | nerdlets/maintainer-dashboard/settings.js:357-363 | the labels become the chosen entries' names, in order |
| SettingsForm.Form.OnCreateUser | nerdlets/maintainer-dashboard/components/settings.js:456-461 | the parsed logins not listed yet, followed by the list unchanged |
| SettingsForm.Form.OnTimeChange | nerdlets/maintainer-dashboard/components/settings.js:491-508 | the time text and unit are stored as given |
| SettingsForm.LatestCheckWins | nerdlets/maintainer-dashboard/settings.js:118-150 | of two checks whose answers come back in reverse order, the later check decides the status |
| SettingsForm.ShortTokenTakesLateAnswer | nerdlets/maintainer-dashboard/components/settings.js:216-230 | as written: a short token typed while a check runs ends up valid once the late answer arrives |
| SettingsForm.GuardedShortTokenStaysInvalid | nerdlets/maintainer-dashboard/components/settings.js:220-227 | corrected: the short token stays invalid and the form reports the PAT error |
| ProfileEditor.Apply | nerdlets/maintainer-dashboard/components/profileEditor.js:72-77 | a change sets only its own field and keeps every other |
| ProfileEditor.OnCreateRepo | nerdlets/maintainer-dashboard/components/profileEditor.js:132-137 | the new repositories are parsed, valid and absent ones, followed by the current repositories unchanged. A list without duplicates stays so |
| ProfileEditor.OnCreateUser | nerdlets/maintainer-dashboard/components/profileEditor.js:239-244 | the new logins are parsed, non-empty and absent ones, followed by the current users. A list without duplicates stays so |
| ProfileEditor.OnCreateRepoIdempotent | nerdlets/maintainer-dashboard/settings.js:291-297 | creating the same text twice leaves the list as the first time |
| ProfileEditor.OnCreateLabel | nerdlets/maintainer-dashboard/components/profileEditor.js:193-199 | an empty name reports nothing, a selected name leaves the list, and any other name is appended |
| ProfileEditor.OnCreateLabelKeepsNoDup | nerdlets/maintainer-dashboard/components/profileEditor.js:193-199 | creating a label keeps the list free of duplicates, holds the name, and creating it again changes nothing |
| ProfileEditor.OnChangeLabels | nerdlets/maintainer-dashboard/components/profileEditor.js:201-207 | one name per chosen entry, in order |
| ProfileEditor.Unselected | nerdlets/maintainer-dashboard/components/profileEditor.js:210-215 | exactly the table entries whose names are not selected |
| ProfileEditor.LabelSuggestions | nerdlets/maintainer-dashboard/components/profileEditor.js:16-18 | the suggestions are every default label not selected, and only those |
| ProfileEditor.ChosenSuggestionLeaves | nerdlets/maintainer-dashboard/components/profileEditor.js:193-215 | choosing a suggestion removes it from the suggestions |
| ProfileEditor.OnStaleTimeValue | nerdlets/maintainer-dashboard/components/profileEditor.js:279-283 | the time box reports `parseFloat` of the text |
| ProfileEditor.StaleTimeText | nerdlets/maintainer-dashboard/components/profileEditor.js:284-288 | NaN shows as an empty box, and a whole number as its integer text: its digits below 1e21 in magnitude, the exponent form from there |
| ProfileEditor.StaleTimeTextRoundTrip | nerdlets/maintainer-dashboard/components/profileEditor.js:279-288 | a typed whole number is shown back as its integer text, which is exactly what was typed iff its magnitude is below 1e21; a typed word shows as an empty box |
| Dashboard.SelectedProfile | nerdlets/maintainer-dashboard/components/dashboard.js:130-132 | the active profile is `profileList[currentProfileIndex]` when that index is in range |
| Dashboard.PropsOf | nerdlets/maintainer-dashboard/components/dashboard.js:139-147 | `companyUsers` is the employees followed by the profile's users. `staleTime` is value times unit, and NaN stays NaN |
| Dashboard.ProfileOptions | nerdlets/maintainer-dashboard/components/dashboard.js:177-181 | one option per profile, valued by its index and showing its name |
| Dashboard.ScreenOf | nerdlets/maintainer-dashboard/components/dashboard.js:91-181 | the screen is chosen in this order: a spinner while loading without settings, then the employee error, then only the settings form without token or settings, then a throw when the settings have no profile list (read at lines 130-132 and 177), then the dashboard. The dashboard shows a spinner while loading, otherwise the selected profile's data, and one selector option per profile |
| Dashboard.MaintainerDashboard.constructor | nerdlets/maintainer-dashboard/components/dashboard.js:30-50 | nothing is loaded and settings are hidden |
| Dashboard.MaintainerDashboard.UpdateSettingsIndex | nerdlets/maintainer-dashboard/components/dashboard.js:57-67 | only the selected index changes. The profile list and every other field are kept |
| Dashboard.MaintainerDashboard.BeginUpdate | nerdlets/maintainer-dashboard/components/dashboard.js:70-72 | a reload starts by setting `loading` |
| Dashboard.MaintainerDashboard.FinishUpdate | nerdlets/maintainer-dashboard/components/dashboard.js:73-89 | the values read replace the cached ones, and a read that threw leaves them. `loading` ends false either way |
| Dashboard.FirstLoad | nerdlets/maintainer-dashboard/components/dashboard.js:70-128 | a fresh dashboard shows a spinner while loading. Afterwards it shows the employee error if reading failed, and otherwise the screen for what was read, never a spinner |
| Dashboard.SwitchProfile | nerdlets/maintainer-dashboard/components/dashboard.js:57-67 | after switching, the data view gets the newly selected profile's props |
| IssueLabel.Lookup | nerdlets/maintainer-dashboard/components/issueLabel.js:61-63 | `has`/`get` on the table: absent iff no entry has the name, and otherwise an entry's colour |
| IssueLabel.LookupOfEntry | nerdlets/maintainer-dashboard/issueLabel.js:33-35 | in a table with distinct names every entry is found under its name |
| IssueLabel.KnownTable | nerdlets/maintainer-dashboard/components/issueLabel.js:10-22 | eleven entries with distinct names, each colour six hex digits |
| IssueLabel.KnownLabelOverrides | nerdlets/maintainer-dashboard/components/issueLabel.js:61-63 | a default label is drawn in its table colour whatever colour it comes with |
| IssueLabel.UnknownLabelKeepsColor | nerdlets/maintainer-dashboard/issueLabel.js:33-35 | any other label is drawn in its own colour |
| IssueLabel.PickTextColor | nerdlets/maintainer-dashboard/components/issueLabel.js:36-42 | the result is always one of the two supplied colours |
| IssueLabel.TextColor | nerdlets/maintainer-dashboard/components/issueLabel.js:84 | a chip's text is `#ffffff` or `#000000` |
| IssueLabel.HexChannel | nerdlets/maintainer-dashboard/components/issueLabel.js:38-40 | a two-digit channel lies in 0..255 |
| IssueLabel.SliceOfHex | nerdlets/maintainer-dashboard/issueLabel.js:21-23 | each slice `[i, i+2)` of a hex colour parses to its channel value |
| IssueLabel.PickOfHexColor | nerdlets/maintainer-dashboard/components/issueLabel.js:37-41 | for a six-digit colour, with or without `#`, dark text is chosen iff 299r + 587g + 114b > 186000 |
| IssueLabel.HashIgnored | nerdlets/maintainer-dashboard/issueLabel.js:20 | a leading `#` never changes the choice |
| IssueLabel.BrighterStaysDark | nerdlets/maintainer-dashboard/issueLabel.js:24 | raising channels never turns dark text light |
| IssueLabel.WhiteAndBlack | nerdlets/maintainer-dashboard/components/issueLabel.js:41 | `ffffff` gets dark text and `000000` light text |
| IssueLabel.WontfixHasDarkText | nerdlets/maintainer-dashboard/issueLabel.js:13-24 | a `wontfix` chip always has dark text |
| IssueTable.Flatten | nerdlets/maintainer-dashboard/components/issueTable.js:53 | every label of every item is in the flattened list, and nothing else is |
| IssueTable.LastWith | nerdlets/maintainer-dashboard/components/issueTable.js:52-54 | a label named n is found iff one is present, and it carries that name |
| IssueTable.LastWithIsLast | nerdlets/maintainer-dashboard/issueTable.js:45-47 | the label found is at a position after which no label has that name |
| IssueTable.DistinctLabels | nerdlets/maintainer-dashboard/components/issueTable.js:51-55 | the names are the distinct names in order of first appearance, and each entry is the last label with its name |
| IssueTable.AllLabels | nerdlets/maintainer-dashboard/components/issueTable.js:51-55 | computes the distinct labels of the flattened items |
| IssueTable.LastByName | nerdlets/maintainer-dashboard/issueTable.js:44-48 | inserting every label into a map keyed by name, then reading its values, gives the distinct labels |
| IssueTable.AllLabelsOnePerName | nerdlets/maintainer-dashboard/issueTable.js:44-48 | exactly one entry per distinct label name on any item, ordered by first appearance |
| IssueTable.LastSeenWins | nerdlets/maintainer-dashboard/components/issueTable.js:51-55 | for a repeated name, the entry kept is the last label seen with it |
| IssueTable.FilterOptions | nerdlets/maintainer-dashboard/components/issueTable.js:122-125 | the options' keys are exactly the label names, and each maps to itself |
| IssueTable.FilterValue | nerdlets/maintainer-dashboard/issueTable.js:120 | a row's filter value is its label names, in order |
| IssueTable.SortCaret | nerdlets/maintainer-dashboard/components/issueTable.js:32-37 | the up arrow iff `asc` and the down arrow iff `desc`, and the vertical arrow otherwise |
| IssueTable.TypeLogo | nerdlets/maintainer-dashboard/issueTable.js:56-60 | the issue logo iff the type is `Issue`, and the pull-request logo otherwise |

## Left out

- Network, GraphQL transport and storage: `client.query`, `fetch`, `Promise.all`, the Apollo client, and NerdStorage/NerdVault reads and writes. Query responses are inputs (classification) or an oracle, a sequence of responses (paging). Reads of the stored settings come in as a `Result`.
- React: rendering, `setState` batching, widget behaviour and table sorting/filtering. A handler's `setState` is one method call. The `submitting` flag is modelled, but its asynchronous write is not.
- The clock and dates: `Date.now()` is a parameter `now`. Timestamps are integers. `toISOString` is a formatter parameter about which nothing is assumed beyond what each lemma requires.
- Pagination.FetchStatus: a run that needs more responses than the oracle holds ends with `Exhausted`. This stands for a run that would go on longer. The rate-limit log is not modelled.
- The loop uses the pull-request query as written. On the first round and in the aligned case the as-written and corrected queries are equal (StatusQuery.FixedAgreesWhenAligned).
- The embedded GraphQL fragment and query documents are treated as constants. Only their aliases, cursor slot and fragment slots are modelled.
- IssueTable.FilterOptions: the options are a map, so the insertion order of the JavaScript options object is not modelled. That order only affects how the filter widget lists them.
- Floating point: `parseFloat`, `*`, `/` and `toString` work on exact rationals. Rounding of products, of `staleTime / 60000` for values that are not whole minutes, and of the luminance weights is not modelled. The luminance test is written in integers scaled by 1000. `toString` is exact for whole numbers, including the exponent form from 1e21 on; other numbers print a truncated fraction.
- Strings are sequences of code points. JavaScript's UTF-16 code units matter for the 20-character token check and for `substring` on non-BMP text, and they are not modelled.
- SettingsForm.SubmitThenRestore: covers minutes only, because restore always shows minutes. The other units are covered by SettingsForm.WrittenMillis.
- `humanizeDuration`, `dashboardData.js` and the root `dashboard.js` are not part of this model. They only render or pass values on.
- The PAT check's repository listing: the suggested repositories from the check's answer are an input of the outcome.
- The plain `onChange` handlers of the repository and user boxes store the widget's value as given. The model has no separate operation for them.
- The profile-name box's `onChange` is covered by ProfileEditor.Apply on a `ProfileName` change.

## Findings

| source | as written | input that shows it | evidently intended | confidence | as-written member | corrected member |
|---|---|---|---|---|---|---|
| nerdlets/maintainer-dashboard/graphql/GithubQueries.js:149-171 | ignored labels are inserted after `-label:` without quotes | ignoring the default label `help wanted` sends `-label:help wanted`, which GitHub reads as `-label:help` plus the free word `wanted` | each ignored label, spaces and all, is one `-label:"…"` qualifier | medium, not executed | GithubQueries.HelpWantedIsSplit | GithubQueries.HelpWantedQuoted |
| nerdlets/maintainer-dashboard/index.js:124-136 | pull-request searches are built from the filtered repositories but read the token at the post-filter position | three repositories where the first has no more pull requests: the third is sent the second's cursor, and the second gets none | each repository pages its pull requests with its own cursor | high, not executed | StatusQuery.PrPageWrongCursor | StatusQuery.FixedPagesEachRepo |
| nerdlets/maintainer-dashboard/components/settings.js:216-230 | a token under 20 characters does not advance `curFetchIndex`, so a check still running for an earlier long token is applied | type a 40-character token and then, before its check answers, a 5-character one: the late success marks the short token valid | a short token invalidates any pending check and stays invalid | medium, not executed | SettingsForm.ShortTokenTakesLateAnswer | SettingsForm.GuardedShortTokenStaysInvalid |
