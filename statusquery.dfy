/**
 * The batched status query of index.js: `normalizeRepoName`,
 * `makeSearchQuery` and `makeStatusQuery`. One GraphQL document asks, for
 * every repository still being paged, for its open unassigned issues and pull
 * requests as two aliased searches, `<name>_issue` and `<name>_pr`, each
 * optionally continuing after a page cursor; `meta` records, per repository,
 * the aliases it was given.
 *
 * After the first round the pull-request searches are built by filtering the
 * repositories first and then reading the page tokens at the position in the
 * filtered list, not the repository's own position. `PrQueries` is that code
 * as written; `PrQueriesFixed` reads each repository's own token.
 */
module StatusQuery {
  import opened Wrappers
  import opened Seqs

  // ---------------------------------------------------------------------------
  // Repository aliases.

  /** `s.split('/').pop()`: the text after the last `/`, or all of s when it has none. */
  function LastSegment(s: string): (r: string)
    ensures |r| <= |s| && r == s[|s| - |r|..]
    ensures forall k :: 0 <= k < |r| ==> r[k] != '/'
    ensures |r| < |s| ==> s[|s| - |r| - 1] == '/'
  {
    if s == [] then []
    else if s[|s| - 1] == '/' then []
    else LastSegment(s[..|s| - 1]) + [s[|s| - 1]]
  }

  /** `s.replace(/-/g, '_')`. */
  function ReplaceDashes(s: string): (r: string)
    ensures |r| == |s|
    ensures forall k :: 0 <= k < |s| ==> r[k] == (if s[k] == '-' then '_' else s[k])
  {
    if s == [] then [] else [if s[0] == '-' then '_' else s[0]] + ReplaceDashes(s[1..])
  }

  /** `normalizeRepoName(repoName)`: the repository's own name, with dashes turned into underscores. */
  function NormalizeRepoName(repoName: string): (r: string)
    ensures forall k :: 0 <= k < |r| ==> r[k] != '/' && r[k] != '-'
  {
    ReplaceDashes(LastSegment(repoName))
  }

  /** For `owner/name` the alias comes from `name` alone. */
  lemma NormalizeOwnerName(owner: string, name: string)
    requires forall k :: 0 <= k < |name| ==> name[k] != '/'
    ensures NormalizeRepoName(owner + "/" + name) == ReplaceDashes(name)
  {
    var s := owner + "/" + name;
    var r := LastSegment(s);
    assert s[|owner|] == '/';
    assert s[|owner| + 1..] == name;
    assert r == name;
  }

  /** Repositories in different owners with the same name get the same alias. */
  lemma SameNameSameAlias(owner1: string, owner2: string, name: string)
    requires forall k :: 0 <= k < |name| ==> name[k] != '/'
    ensures NormalizeRepoName(owner1 + "/" + name) == NormalizeRepoName(owner2 + "/" + name)
  {
    NormalizeOwnerName(owner1, name);
    NormalizeOwnerName(owner2, name);
  }

  // ---------------------------------------------------------------------------
  // One aliased search.

  /** What `makeSearchQuery` returns: the alias and the text of the aliased search. */
  datatype SearchQuery = SearchQuery(key: string, query: string)

  /** The search text after the alias, up to where the optional cursor goes. */
  function SearchArguments(repoName: string, kind: string): (t: string)
    ensures t != [] && t[0] == ':'
  {
    SearchOpen + repoName + " is:" + kind + SearchFilters
  }

  const SearchOpen: string := ": search(query: \"repo:"
  const SearchFilters: string := " is:open no:assignee no:project\" type: ISSUE first:100 "
  const SearchClose: string := ") {\n    ..."
  const SearchCount: string := "\n    issueCount\n    }"

  /** The text of the search up to where the optional cursor goes. */
  function SearchHead(repoName: string, suffix: string, kind: string): string {
    NormalizeRepoName(repoName) + suffix + SearchArguments(repoName, kind)
  }

  /** `after:"<token>"` when a token is supplied, nothing otherwise. */
  function AfterClause(pageToken: Option<string>): string {
    if Truthy(pageToken) then "after:\"" + pageToken.value + "\"" else ""
  }

  /** The text of the search after the optional cursor. */
  function SearchTail(fragmentName: string): string {
    SearchClose + fragmentName + SearchCount
  }

  /** `makeSearchQuery(repoName, suffix, fragmentName, type, pageToken)`. */
  function MakeSearchQuery(repoName: string, suffix: string, fragmentName: string, kind: string, pageToken: Option<string>): (q: SearchQuery)
  {
    var key := NormalizeRepoName(repoName) + suffix;
    SearchQuery(key, key + (SearchArguments(repoName, kind) + (AfterClause(pageToken) + SearchTail(fragmentName))))
  }

  /** The key is the alias, and the text of the search begins with it: `<key>: search(…)`. */
  lemma SearchQueryKey(repoName: string, suffix: string, fragmentName: string, kind: string, pageToken: Option<string>)
    ensures var q := MakeSearchQuery(repoName, suffix, fragmentName, kind, pageToken);
      && q.key == NormalizeRepoName(repoName) + suffix
      && |q.key| < |q.query| && q.query[..|q.key|] == q.key && q.query[|q.key|] == ':'
  {
    var key := NormalizeRepoName(repoName) + suffix;
    var rest := SearchArguments(repoName, kind) + (AfterClause(pageToken) + SearchTail(fragmentName));
    assert (key + rest)[|key|] == rest[0];
  }

  /**
   * A supplied token adds exactly its `after:"<token>"` clause at one place in
   * the text of the search without one, after the search arguments; a missing
   * or empty token adds nothing.
   */
  lemma AfterIffToken(repoName: string, suffix: string, fragmentName: string, kind: string, pageToken: Option<string>)
    ensures var base := MakeSearchQuery(repoName, suffix, fragmentName, kind, None).query;
      var q := MakeSearchQuery(repoName, suffix, fragmentName, kind, pageToken).query;
      var n := |SearchHead(repoName, suffix, kind)|;
      && n <= |base|
      && q == base[..n] + AfterClause(pageToken) + base[n..]
      && (!Truthy(pageToken) ==> q == base)
  {
    var key, args := NormalizeRepoName(repoName) + suffix, SearchArguments(repoName, kind);
    var a, t := AfterClause(pageToken), SearchTail(fragmentName);
    assert AfterClause(None) == "";
    var base := MakeSearchQuery(repoName, suffix, fragmentName, kind, None).query;
    var q := MakeSearchQuery(repoName, suffix, fragmentName, kind, pageToken).query;
    Splice(key, args, a, t, base, q, SearchHead(repoName, suffix, kind));
  }

  /** Text inserted between two parts of a three-part text. */
  lemma Splice(key: string, args: string, a: string, t: string, base: string, q: string, head: string)
    requires base == key + (args + ("" + t)) && q == key + (args + (a + t)) && head == key + args
    ensures |head| <= |base| && base[..|head|] == head && base[|head|..] == t
    ensures q == base[..|head|] + a + base[|head|..]
    ensures a == "" ==> q == base
  {
    assert base == head + t;
  }

  /**
   * The arguments of one `makeSearchQuery` call. The lists of searches below
   * hold these; the alias and the text of a search are those of
   * `MakeSearchQuery` applied to them.
   */
  datatype SearchCall = SearchCall(repoName: string, suffix: string, fragmentName: string, kind: string, pageToken: Option<string>)

  /** The search a call produces. */
  function Render(c: SearchCall): SearchQuery {
    MakeSearchQuery(c.repoName, c.suffix, c.fragmentName, c.kind, c.pageToken)
  }

  /** `makeSearchQuery(repo, '_issue', 'GetIssues', 'issue', pageToken)`. */
  function IssueSearch(repo: string, pageToken: Option<string>): SearchCall {
    SearchCall(repo, "_issue", "GetIssues", "issue", pageToken)
  }

  /** `makeSearchQuery(repo, '_pr', 'GetPullRequests', 'pr', pageToken)`. */
  function PrSearch(repo: string, pageToken: Option<string>): SearchCall {
    SearchCall(repo, "_pr", "GetPullRequests", "pr", pageToken)
  }

  // ---------------------------------------------------------------------------
  // The batched query.

  /** A repository's cursors for the next round: `{ issue, pr }`. */
  datatype PageToken = PageToken(issue: Option<string>, pr: Option<string>)

  /** The aliases a repository was given in one query: `{ issueName, prName }`. */
  datatype Meta = Meta(issueName: Option<string>, prName: Option<string>)

  /** What `makeStatusQuery` returns: the GraphQL document and the aliases per repository. */
  datatype StatusQuery = StatusQuery(query: string, meta: map<string, Meta>)

  /** `pageTokens[i]`: absent when there are no tokens or i is past their end. */
  function TokenAt(pageTokens: Option<seq<PageToken>>, i: int): (t: Option<PageToken>)
    ensures t.Some? <==> pageTokens.Some? && 0 <= i < |pageTokens.value|
    ensures t.Some? ==> t.value == pageTokens.value[i]
  {
    if pageTokens.Some? && 0 <= i < |pageTokens.value| then Some(pageTokens.value[i]) else None
  }

  /** `pageTokens && pageTokens[i] && pageTokens[i].issue`. */
  function IssueArg(pageTokens: Option<seq<PageToken>>, i: int): Option<string> {
    match TokenAt(pageTokens, i)
    case None => None
    case Some(t) => t.issue
  }

  /** `pageTokens && pageTokens[i] && pageTokens[i].pr`. */
  function PrArg(pageTokens: Option<seq<PageToken>>, i: int): Option<string> {
    match TokenAt(pageTokens, i)
    case None => None
    case Some(t) => t.pr
  }

  /** `!pageTokens || pageTokens[i]`. */
  predicate HasToken(pageTokens: Option<seq<PageToken>>, i: int) {
    pageTokens.None? || TokenAt(pageTokens, i).Some?
  }

  /** `!pageTokens || (pageTokens[i] && pageTokens[i].issue)`. */
  predicate WantsIssues(pageTokens: Option<seq<PageToken>>, i: int) {
    pageTokens.None? || Truthy(IssueArg(pageTokens, i))
  }

  /** `!pageTokens || (pageTokens[i] && pageTokens[i].pr)`. */
  predicate WantsPrs(pageTokens: Option<seq<PageToken>>, i: int) {
    pageTokens.None? || Truthy(PrArg(pageTokens, i))
  }

  /** The two position filters applied to `repos`. */
  datatype RepoFilter = HasTokenAt | WantsPrsAt

  /** Whether the filter keeps position i. */
  predicate Keeps(f: RepoFilter, pageTokens: Option<seq<PageToken>>, i: int) {
    match f
    case HasTokenAt => HasToken(pageTokens, i)
    case WantsPrsAt => WantsPrs(pageTokens, i)
  }

  /** `repos.filter((_r, i) => keep(i))`: the repositories at the kept positions, in order. */
  function FilterRepos(repos: seq<string>, pageTokens: Option<seq<PageToken>>, f: RepoFilter): (r: seq<string>)
    ensures |r| <= |repos|
    ensures (forall i :: 0 <= i < |repos| ==> Keeps(f, pageTokens, i)) ==> r == repos
  {
    if repos == [] then []
    else
      var n := |repos| - 1;
      FilterRepos(repos[..n], pageTokens, f) + (if Keeps(f, pageTokens, n) then [repos[n]] else [])
  }

  /** `repos.filter((_r, i) => !pageTokens || pageTokens[i])`. */
  function ValidRepos(repos: seq<string>, pageTokens: Option<seq<PageToken>>): seq<string> {
    FilterRepos(repos, pageTokens, HasTokenAt)
  }

  /** The issue searches: one entry per valid repository, read against the token at the same position of that list. */
  function IssueQueries(repos: seq<string>, pageTokens: Option<seq<PageToken>>): (r: seq<Option<SearchCall>>)
    ensures var v := ValidRepos(repos, pageTokens);
      |r| == |v| && forall i :: 0 <= i < |v| ==>
        r[i] == if WantsIssues(pageTokens, i)
          then Some(IssueSearch(v[i], IssueArg(pageTokens, i))) else None
  {
    var v := ValidRepos(repos, pageTokens);
    seq(|v|, i requires 0 <= i < |v| =>
      if WantsIssues(pageTokens, i)
      then Some(IssueSearch(v[i], IssueArg(pageTokens, i))) else None)
  }

  /** The repositories still paging pull requests: `repos.filter((_r, i) => !pageTokens || (pageTokens[i] && pageTokens[i].pr))`. */
  function PrRepos(repos: seq<string>, pageTokens: Option<seq<PageToken>>): seq<string> {
    FilterRepos(repos, pageTokens, WantsPrsAt)
  }

  /** The pull-request searches as written: the filtered list, read against the token at the position in that list. */
  function PrQueries(repos: seq<string>, pageTokens: Option<seq<PageToken>>): (r: seq<Option<SearchCall>>)
    ensures var p := PrRepos(repos, pageTokens);
      |r| == |p| && forall i :: 0 <= i < |p| ==>
        r[i] == if WantsPrs(pageTokens, i)
          then Some(PrSearch(p[i], PrArg(pageTokens, i))) else None
  {
    var p := PrRepos(repos, pageTokens);
    seq(|p|, i requires 0 <= i < |p| =>
      if WantsPrs(pageTokens, i)
      then Some(PrSearch(p[i], PrArg(pageTokens, i))) else None)
  }

  /** `queries.filter(q => q)`: the searches of the present entries, in order. */
  function Present(queries: seq<Option<SearchCall>>): (r: seq<SearchCall>)
    ensures |r| <= |queries|
  {
    if queries == [] then []
    else (if queries[0].Some? then [queries[0].value] else []) + Present(queries[1..])
  }

  /** When every entry is present, the present searches are the entries' values, one per entry. */
  lemma {:induction false} PresentOfAllSome(queries: seq<Option<SearchCall>>)
    requires forall i :: 0 <= i < |queries| ==> queries[i].Some?
    ensures |Present(queries)| == |queries|
    ensures forall i :: 0 <= i < |queries| ==> Some(Present(queries)[i]) == queries[i]
  {
    if queries != [] {
      PresentOfAllSome(queries[1..]);
      PresentFirst(queries);
    }
  }

  /** The present searches of a non-empty list: its first entry's, then the rest's. */
  lemma PresentFirst(queries: seq<Option<SearchCall>>)
    requires queries != []
    ensures Present(queries) == (if queries[0].Some? then [queries[0].value] else []) + Present(queries[1..])
  {
  }

  /** A search is among the present ones iff some entry holds it. */
  lemma {:induction false} PresentMembers(queries: seq<Option<SearchCall>>, c: SearchCall)
    ensures c in Present(queries) <==> Some(c) in queries
  {
    if queries != [] {
      PresentMembers(queries[1..], c);
      PresentFirst(queries);
      assert Some(c) in queries <==> Some(c) == queries[0] || Some(c) in queries[1..];
    }
  }

  /** `queries.filter(q => q).map(text)`. */
  function TextsOf(queries: seq<Option<SearchCall>>, text: SearchCall -> string): (r: seq<string>)
    ensures |r| == |Present(queries)|
  {
    if queries == [] then []
    else (if queries[0].Some? then [text(queries[0].value)] else []) + TextsOf(queries[1..], text)
  }

  /** The k-th mapped text is the text of the k-th present search. */
  lemma {:induction false} TextsOfAt(queries: seq<Option<SearchCall>>, text: SearchCall -> string, k: nat)
    requires k < |Present(queries)|
    ensures TextsOf(queries, text)[k] == text(Present(queries)[k])
  {
    PresentFirst(queries);
    var rest := queries[1..];
    if queries[0].Some? && k == 0 {
    } else if queries[0].Some? {
      TextsOfAt(rest, text, k - 1);
    } else {
      TextsOfAt(rest, text, k);
    }
  }

  /** Mapping a concatenation maps the two lists one after the other. */
  lemma {:induction false} TextsOfConcat(a: seq<Option<SearchCall>>, b: seq<Option<SearchCall>>, text: SearchCall -> string)
    ensures TextsOf(a + b, text) == TextsOf(a, text) + TextsOf(b, text)
  {
    if a == [] {
      assert a + b == b;
    } else {
      var h := if a[0].Some? then [text(a[0].value)] else [];
      assert (a + b)[0] == a[0] && (a + b)[1..] == a[1..] + b;
      assert TextsOf(a + b, text) == h + TextsOf(a[1..] + b, text);
      TextsOfConcat(a[1..], b, text);
      assert TextsOf(a, text) == h + TextsOf(a[1..], text);
      Seqs.AppendAssoc3(h, TextsOf(a[1..], text), TextsOf(b, text));
    }
  }

  /** The text of one search: `q.query`. */
  function QueryText(c: SearchCall): string {
    Render(c).query
  }

  /** `queries.filter(q => q).map(q => q.query)`: the text of each present search, in order. */
  function QueryTexts(queries: seq<Option<SearchCall>>): (r: seq<string>)
    ensures |r| == |Present(queries)| && |r| <= |queries|
    ensures forall k :: 0 <= k < |r| ==> r[k] == QueryText(Present(queries)[k])
  {
    forall k | 0 <= k < |Present(queries)| ensures TextsOf(queries, QueryText)[k] == QueryText(Present(queries)[k]) {
      TextsOfAt(queries, QueryText, k);
    }
    TextsOf(queries, QueryText)
  }

  /** QueryTexts is the general filter-and-map with `q.query` as the text. */
  lemma QueryTextsAreTexts(queries: seq<Option<SearchCall>>)
    ensures QueryTexts(queries) == TextsOf(queries, QueryText)
  {
  }

  /** Filtering and mapping a concatenation gives the two lists' texts one after the other. */
  lemma QueryTextsConcat(a: seq<Option<SearchCall>>, b: seq<Option<SearchCall>>)
    ensures QueryTexts(a + b) == QueryTexts(a) + QueryTexts(b)
  {
    TextsOfConcat(a, b, QueryText);
  }

  /** One entry: a present search gives its text, an absent one nothing. */
  lemma QueryTextsOne(q: Option<SearchCall>)
    ensures QueryTexts([q]) == if q.Some? then [QueryText(q.value)] else []
  {
    assert [q][1..] == [];
  }

  /** The texts of a list whose entries are all present: one per entry, in order. */
  lemma AllPresentTexts(queries: seq<Option<SearchCall>>)
    requires forall i :: 0 <= i < |queries| ==> queries[i].Some?
    ensures |QueryTexts(queries)| == |queries|
    ensures forall i :: 0 <= i < |queries| ==> QueryTexts(queries)[i] == QueryText(queries[i].value)
  {
    AllPresentTextsOf(queries, QueryText);
  }

  /** `queries[i] && queries[i].key`. */
  function KeyAt(queries: seq<Option<SearchCall>>, i: int): (k: Option<string>)
    ensures k.Some? <==> 0 <= i < |queries| && queries[i].Some?
  {
    if 0 <= i < |queries| && queries[i].Some? then Some(Render(queries[i].value).key) else None
  }

  /** `Object.fromEntries(keys.map((k, i) => [k, values[i]]))`: later entries overwrite earlier ones. */
  function FromEntries<V>(keys: seq<string>, values: seq<V>): (m: map<string, V>)
    requires |keys| == |values|
    ensures m.Keys == set k | k in keys
  {
    if keys == [] then map[]
    else
      var n := |keys| - 1;
      FromEntries(keys[..n], values[..n])[keys[n] := values[n]]
  }

  /** Without repeated keys, each key maps to the value at its position. */
  lemma {:induction false} FromEntriesAt<V>(keys: seq<string>, values: seq<V>, i: nat)
    requires |keys| == |values| && NoDup(keys) && i < |keys|
    ensures FromEntries(keys, values)[keys[i]] == values[i]
  {
    var n := |keys| - 1;
    if i < n {
      assert keys[i] != keys[n];
      assert NoDup(keys[..n]) by {
        forall a, b | 0 <= a < b < n ensures keys[..n][a] != keys[..n][b] {
          assert keys[..n][a] == keys[a] && keys[..n][b] == keys[b];
        }
      }
      FromEntriesAt(keys[..n], values[..n], i);
      assert keys[..n][i] == keys[i];
    }
  }

  /** When the value at every position is a function of its key, every key maps to that function of itself. */
  lemma {:induction false} FromEntriesOfKeys<V>(keys: seq<string>, values: seq<V>, f: string -> V)
    requires |keys| == |values|
    requires forall i :: 0 <= i < |keys| ==> values[i] == f(keys[i])
    ensures forall k :: k in FromEntries(keys, values) ==> FromEntries(keys, values)[k] == f(k)
  {
    if keys != [] {
      var n := |keys| - 1;
      FromEntriesOfKeys(keys[..n], values[..n], f);
    }
  }

  /** The `meta` entry of the repository at position i. */
  function MetaAt(issueQueries: seq<Option<SearchCall>>, prQueries: seq<Option<SearchCall>>, i: int): Meta {
    Meta(KeyAt(issueQueries, i), KeyAt(prQueries, i))
  }

  /** `Object.fromEntries(repos.map((r, i) => [r, meta at i]))`. */
  function StatusMeta(repos: seq<string>, issueQueries: seq<Option<SearchCall>>, prQueries: seq<Option<SearchCall>>): (m: map<string, Meta>)
    ensures m.Keys == set r | r in repos
  {
    FromEntries(repos, seq(|repos|, i requires 0 <= i < |repos| => MetaAt(issueQueries, prQueries, i)))
  }

  /** Without repeated repositories, each one is given the aliases at its own position. */
  lemma StatusMetaAt(repos: seq<string>, issueQueries: seq<Option<SearchCall>>, prQueries: seq<Option<SearchCall>>, i: nat)
    requires NoDup(repos) && i < |repos|
    ensures StatusMeta(repos, issueQueries, prQueries)[repos[i]] == MetaAt(issueQueries, prQueries, i)
  {
    FromEntriesAt(repos, seq(|repos|, j requires 0 <= j < |repos| => MetaAt(issueQueries, prQueries, j)), i);
  }

  /** The alias of a search is the normalized repository name followed by the suffix. */
  lemma KeyOfSearch(queries: seq<Option<SearchCall>>, i: nat)
    requires i < |queries| && queries[i].Some?
    ensures KeyAt(queries, i) == Some(NormalizeRepoName(queries[i].value.repoName) + queries[i].value.suffix)
  {
    var c := queries[i].value;
    SearchQueryKey(c.repoName, c.suffix, c.fragmentName, c.kind, c.pageToken);
  }

  /** The fixed parts of the GraphQL document. Only the fragment headers are kept; their field selections are not part of this model. */
  const FragmentKeyword: string := "fragment "
  const IssueFragment: string := FragmentKeyword + "GetIssues on SearchResultItemConnection { ... }"
  const PrFragment: string := FragmentKeyword + "GetPullRequests on SearchResultItemConnection { ... }"
  const RateLimitBlock: string := "\n      rateLimit {\n        limit\n        cost\n        remaining\n        resetAt\n      }\n    }"

  /** Some entry is a search. */
  predicate AnyQuery(queries: seq<Option<SearchCall>>) {
    exists i :: 0 <= i < |queries| && queries[i].Some?
  }

  /** The document: the fragments in use, then the joined searches inside `query { … }`. */
  function StatusDocument(issueQueries: seq<Option<SearchCall>>, prQueries: seq<Option<SearchCall>>): string {
    (if AnyQuery(issueQueries) then IssueFragment else "") + (FragmentBreak
      + ((if AnyQuery(prQueries) then PrFragment else "") + (QueryOpen
      + (Join(QueryTexts(issueQueries + prQueries), "\n") + RateLimitBlock))))
  }

  const FragmentBreak: string := "\n    "
  const QueryOpen: string := "\n    query {\n      "

  /** `makeStatusQuery(repos, pageTokens)`, as written. */
  function MakeStatusQuery(repos: seq<string>, pageTokens: Option<seq<PageToken>>): (q: StatusQuery)
    ensures q.meta.Keys == set r | r in repos
  {
    var iq, pq := IssueQueries(repos, pageTokens), PrQueries(repos, pageTokens);
    StatusQuery(StatusDocument(iq, pq), StatusMeta(repos, iq, pq))
  }

  /** A slot that holds a fragment or nothing, followed by text that cannot start the fragment. */
  lemma FragmentSlot(h: string, f: string, tail: string, used: bool)
    requires h == (if used then f else "")
    requires f != [] && tail != [] && tail[0] != f[0]
    ensures used <==> |f| <= |h + tail| && (h + tail)[..|f|] == f
  {
    if used {
      assert (h + tail)[..|f|] == f;
    } else {
      assert h + tail == tail;
      if |f| <= |tail| {
        assert tail[..|f|][0] == tail[0];
      }
    }
  }

  /** Both slots of a document `h + (sep + (p + rest))`. */
  lemma DocumentSlots(h: string, p: string, sep: string, rest: string, f: string, g: string, usedF: bool, usedG: bool)
    requires h == (if usedF then f else "") && p == (if usedG then g else "")
    requires f != [] && g != [] && sep != [] && rest != [] && sep[0] != f[0] && rest[0] != g[0]
    ensures var d := h + (sep + (p + rest));
      && (usedF <==> |f| <= |d| && d[..|f|] == f)
      && |h| + |sep| <= |d|
      && (usedG <==> |h| + |sep| + |g| <= |d| && d[|h| + |sep|..|h| + |sep| + |g|] == g)
  {
    var d := h + (sep + (p + rest));
    assert (sep + (p + rest))[0] == sep[0];
    FragmentSlot(h, f, sep + (p + rest), usedF);
    FragmentSlot(p, g, rest, usedG);
    assert d[|h| + |sep|..] == p + rest;
  }

  /** Each fragment is in the document iff at least one search of its kind is. */
  lemma FragmentIffUsed(issueQueries: seq<Option<SearchCall>>, prQueries: seq<Option<SearchCall>>)
    ensures var d := StatusDocument(issueQueries, prQueries);
      var h := if AnyQuery(issueQueries) then IssueFragment else "";
      && (AnyQuery(issueQueries) <==> |IssueFragment| <= |d| && d[..|IssueFragment|] == IssueFragment)
      && |h| + 5 <= |d|
      && (AnyQuery(prQueries) <==> |h| + 5 + |PrFragment| <= |d| && d[|h| + 5..|h| + 5 + |PrFragment|] == PrFragment)
  {
    var h := if AnyQuery(issueQueries) then IssueFragment else "";
    var p := if AnyQuery(prQueries) then PrFragment else "";
    var rest := QueryOpen + (Join(QueryTexts(issueQueries + prQueries), "\n") + RateLimitBlock);
    assert IssueFragment[0] == 'f' && PrFragment[0] == 'f';
    assert |FragmentBreak| == 5 && FragmentBreak[0] == '\n' && QueryOpen[0] == '\n';
    DocumentSlots(h, p, FragmentBreak, rest, IssueFragment, PrFragment, AnyQuery(issueQueries), AnyQuery(prQueries));
  }

  /** A text ending in t: its last |t| characters are t. */
  lemma EndsWith(h: string, t: string)
    ensures |t| <= |h + t| && (h + t)[|h + t| - |t|..] == t
  {
  }

  /**
   * The document ends with the searches inside `query { … }`: the present
   * issue searches in order, then the present pull-request searches in
   * order, one per line, then the rate-limit block.
   */
  lemma DocumentSearches(issueQueries: seq<Option<SearchCall>>, prQueries: seq<Option<SearchCall>>)
    ensures var d := StatusDocument(issueQueries, prQueries);
      var tail := QueryOpen + (Join(QueryTexts(issueQueries) + QueryTexts(prQueries), "\n") + RateLimitBlock);
      |tail| <= |d| && d[|d| - |tail|..] == tail
  {
    var h := if AnyQuery(issueQueries) then IssueFragment else "";
    var p := if AnyQuery(prQueries) then PrFragment else "";
    QueryTextsConcat(issueQueries, prQueries);
    var tail := QueryOpen + (Join(QueryTexts(issueQueries) + QueryTexts(prQueries), "\n") + RateLimitBlock);
    Seqs.AppendAssoc3(h, FragmentBreak + p, tail);
    Seqs.AppendAssoc3(FragmentBreak, p, tail);
    EndsWith(h + (FragmentBreak + p), tail);
  }

  // ---------------------------------------------------------------------------
  // The first round.

  /** The aliases of a repository on the first round. */
  function FirstMeta(repo: string): Meta {
    Meta(Some(NormalizeRepoName(repo) + "_issue"), Some(NormalizeRepoName(repo) + "_pr"))
  }

  /** Without tokens every repository gets one issue search and one pull-request search, both without cursor. */
  lemma FirstRound(repos: seq<string>)
    ensures |IssueQueries(repos, None)| == |repos| && |PrQueries(repos, None)| == |repos|
    ensures forall i :: 0 <= i < |repos| ==>
      IssueQueries(repos, None)[i] == Some(IssueSearch(repos[i], None)) && PrQueries(repos, None)[i] == Some(PrSearch(repos[i], None))
  {
    assert ValidRepos(repos, None) == repos;
    assert PrRepos(repos, None) == repos;
  }

  /** On the first round `meta` maps each repository to its two aliases. */
  lemma FirstRoundMeta(repos: seq<string>)
    ensures forall r :: r in repos ==> MakeStatusQuery(repos, None).meta[r] == FirstMeta(r)
  {
    FirstRound(repos);
    var iq, pq := IssueQueries(repos, None), PrQueries(repos, None);
    var vals := seq(|repos|, i requires 0 <= i < |repos| => MetaAt(iq, pq, i));
    forall i | 0 <= i < |repos| ensures vals[i] == FirstMeta(repos[i]) {
      KeyOfSearch(iq, i);
      KeyOfSearch(pq, i);
    }
    FromEntriesOfKeys(repos, vals, FirstMeta);
  }

  /** The texts of two lists whose entries are all present: the first list's, then the second's. */
  lemma AllPresentConcatTexts(a: seq<Option<SearchCall>>, b: seq<Option<SearchCall>>, text: SearchCall -> string)
    requires forall i :: 0 <= i < |a| ==> a[i].Some?
    requires forall i :: 0 <= i < |b| ==> b[i].Some?
    ensures var texts := TextsOf(a + b, text);
      && |texts| == |a| + |b|
      && (forall i :: 0 <= i < |a| ==> texts[i] == text(a[i].value))
      && (forall i :: 0 <= i < |b| ==> texts[|a| + i] == text(b[i].value))
  {
    TextsOfConcat(a, b, text);
    AllPresentTextsOf(a, text);
    AllPresentTextsOf(b, text);
  }

  /** The texts of a list whose entries are all present: one per entry, in order. */
  lemma AllPresentTextsOf(queries: seq<Option<SearchCall>>, text: SearchCall -> string)
    requires forall i :: 0 <= i < |queries| ==> queries[i].Some?
    ensures |TextsOf(queries, text)| == |queries|
    ensures forall i :: 0 <= i < |queries| ==> TextsOf(queries, text)[i] == text(queries[i].value)
  {
    PresentOfAllSome(queries);
    forall i | 0 <= i < |queries| ensures TextsOf(queries, text)[i] == text(queries[i].value) {
      TextsOfAt(queries, text, i);
    }
  }

  /**
   * On the first round the document holds every repository's issue search,
   * in input order, and then every repository's pull-request search.
   */
  lemma {:induction false} FirstRoundTexts(repos: seq<string>)
    ensures var texts := QueryTexts(IssueQueries(repos, None) + PrQueries(repos, None));
      && |texts| == 2 * |repos|
      && (forall i :: 0 <= i < |repos| ==> texts[i] == QueryText(IssueSearch(repos[i], None)))
      && (forall i :: 0 <= i < |repos| ==> texts[|repos| + i] == QueryText(PrSearch(repos[i], None)))
  {
    var iq, pq := IssueQueries(repos, None), PrQueries(repos, None);
    FirstRound(repos);
    QueryTextsAreTexts(iq + pq);
    SearchesTexts(repos, iq, pq, QueryText);
  }

  /** The texts of the first round's searches, for any lists holding them and any text function. */
  lemma {:induction false} SearchesTexts(repos: seq<string>, iq: seq<Option<SearchCall>>, pq: seq<Option<SearchCall>>, text: SearchCall -> string)
    requires |iq| == |repos| && |pq| == |repos|
    requires forall i :: 0 <= i < |repos| ==> iq[i] == Some(IssueSearch(repos[i], None)) && pq[i] == Some(PrSearch(repos[i], None))
    ensures var texts := TextsOf(iq + pq, text);
      && |texts| == 2 * |repos|
      && (forall i :: 0 <= i < |repos| ==> texts[i] == text(IssueSearch(repos[i], None)))
      && (forall i :: 0 <= i < |repos| ==> texts[|repos| + i] == text(PrSearch(repos[i], None)))
  {
    AllPresentConcatTexts(iq, pq, text);
  }

  /** On the first round both fragments are present iff there is a repository. */
  lemma FirstRoundFragments(repos: seq<string>)
    ensures AnyQuery(IssueQueries(repos, None)) <==> repos != []
    ensures AnyQuery(PrQueries(repos, None)) <==> repos != []
  {
    FirstRound(repos);
    if repos != [] {
      assert IssueQueries(repos, None)[0].Some? && PrQueries(repos, None)[0].Some?;
    }
  }

  // ---------------------------------------------------------------------------
  // Later rounds.

  /** Tokens for every repository, as the pagination loop passes them: one per repository, each with a cursor. */
  predicate Aligned(repos: seq<string>, tokens: seq<PageToken>) {
    |tokens| == |repos|
  }

  /** Every repository still paging pull requests. */
  predicate AllPagingPrs(tokens: seq<PageToken>) {
    forall i :: 0 <= i < |tokens| ==> Truthy(tokens[i].pr)
  }

  /** With one token per repository, every repository is valid, and it asks for its next issue page iff its issue cursor is set. */
  lemma LaterRoundIssues(repos: seq<string>, tokens: seq<PageToken>)
    requires Aligned(repos, tokens)
    ensures ValidRepos(repos, Some(tokens)) == repos
    ensures forall i :: 0 <= i < |repos| ==>
      IssueQueries(repos, Some(tokens))[i] == if Truthy(tokens[i].issue)
        then Some(IssueSearch(repos[i], tokens[i].issue)) else None
  {
    assert forall i :: 0 <= i < |repos| ==> HasToken(Some(tokens), i);
  }

  /** When every repository is still paging pull requests, each asks for its next pull-request page with its own cursor. */
  lemma LaterRoundPrsAligned(repos: seq<string>, tokens: seq<PageToken>)
    requires Aligned(repos, tokens) && AllPagingPrs(tokens)
    ensures PrRepos(repos, Some(tokens)) == repos
    ensures forall i :: 0 <= i < |repos| ==>
      PrQueries(repos, Some(tokens))[i] == Some(PrSearch(repos[i], tokens[i].pr))
  {
    assert forall i :: 0 <= i < |repos| ==> WantsPrs(Some(tokens), i);
  }

  /** In that case `meta` maps each repository to its own aliases. */
  lemma LaterRoundMetaAligned(repos: seq<string>, tokens: seq<PageToken>, i: nat)
    requires Aligned(repos, tokens) && AllPagingPrs(tokens) && NoDup(repos) && i < |repos|
    ensures MakeStatusQuery(repos, Some(tokens)).meta[repos[i]] ==
      Meta(if Truthy(tokens[i].issue) then Some(NormalizeRepoName(repos[i]) + "_issue") else None,
           Some(NormalizeRepoName(repos[i]) + "_pr"))
  {
    LaterRoundIssues(repos, tokens);
    LaterRoundPrsAligned(repos, tokens);
    var iq, pq := IssueQueries(repos, Some(tokens)), PrQueries(repos, Some(tokens));
    StatusMetaAt(repos, iq, pq, i);
    if Truthy(tokens[i].issue) {
      KeyOfSearch(iq, i);
    }
    KeyOfSearch(pq, i);
  }

  /**
   * As written: with two repositories where the first has no more pull
   * requests and the second has, the pull-request list holds the second alone
   * but is read against the first one's token, so no pull-request search is
   * sent and the second repository gets no pull-request alias.
   */
  lemma PrPageDropped(repos: seq<string>, tokens: seq<PageToken>)
    requires |repos| == 2 && |tokens| == 2 && repos[0] != repos[1]
    requires !Truthy(tokens[0].pr) && Truthy(tokens[1].pr)
    ensures PrRepos(repos, Some(tokens)) == [repos[1]]
    ensures PrQueries(repos, Some(tokens)) == [None]
    ensures MakeStatusQuery(repos, Some(tokens)).meta[repos[1]].prName == None
  {
    DroppedPrQueries(repos, tokens);
    assert NoDup(repos);
    NoPrAliasPast(repos, Some(tokens), 1);
  }

  /** ... and so the pull-request list holds one entry, and no search. */
  lemma DroppedPrQueries(repos: seq<string>, tokens: seq<PageToken>)
    requires |repos| == 2 && |tokens| == 2
    requires !Truthy(tokens[0].pr) && Truthy(tokens[1].pr)
    ensures PrRepos(repos, Some(tokens)) == [repos[1]]
    ensures PrQueries(repos, Some(tokens)) == [None]
  {
    DroppedPrRepos(repos, tokens);
    var pq := PrQueries(repos, Some(tokens));
    assert !WantsPrs(Some(tokens), 0);
    assert |pq| == 1 && pq[0] == None;
  }

  /** The `meta` of the batched query is that of its two lists of searches. */
  lemma StatusQueryMeta(repos: seq<string>, pageTokens: Option<seq<PageToken>>)
    ensures MakeStatusQuery(repos, pageTokens).meta ==
      StatusMeta(repos, IssueQueries(repos, pageTokens), PrQueries(repos, pageTokens))
  {
  }

  /** Which repositories the pull-request filter keeps when only the second of two is paging. */
  lemma DroppedPrRepos(repos: seq<string>, tokens: seq<PageToken>)
    requires |repos| == 2 && |tokens| == 2
    requires !Truthy(tokens[0].pr) && Truthy(tokens[1].pr)
    ensures PrRepos(repos, Some(tokens)) == [repos[1]]
  {
    assert repos[..1][..0] == [];
    assert FilterRepos(repos[..1], Some(tokens), WantsPrsAt) == [];
  }

  /** A repository at a position past the end of the pull-request list gets no pull-request alias. */
  lemma NoPrAliasPast(repos: seq<string>, pageTokens: Option<seq<PageToken>>, i: nat)
    requires NoDup(repos) && |PrQueries(repos, pageTokens)| <= i < |repos|
    ensures MakeStatusQuery(repos, pageTokens).meta[repos[i]].prName == None
  {
    StatusQueryMeta(repos, pageTokens);
    StatusMetaAt(repos, IssueQueries(repos, pageTokens), PrQueries(repos, pageTokens), i);
  }

  /**
   * As written: with three repositories where only the first has stopped
   * paging pull requests, the first pull-request search is read against the
   * first repository's token and dropped, and the third repository's search
   * is sent with the second repository's cursor.
   */
  lemma PrPageWrongCursor(repos: seq<string>, tokens: seq<PageToken>)
    requires |repos| == 3 && |tokens| == 3
    requires !Truthy(tokens[0].pr) && Truthy(tokens[1].pr) && Truthy(tokens[2].pr)
    ensures PrQueries(repos, Some(tokens)) == [None, Some(PrSearch(repos[2], tokens[1].pr))]
  {
    WrongCursorRepos(repos, tokens);
  }

  /** Which repositories the pull-request filter keeps when only the first of three has stopped paging. */
  lemma WrongCursorRepos(repos: seq<string>, tokens: seq<PageToken>)
    requires |repos| == 3 && |tokens| == 3
    requires !Truthy(tokens[0].pr) && Truthy(tokens[1].pr) && Truthy(tokens[2].pr)
    ensures PrRepos(repos, Some(tokens)) == [repos[1], repos[2]]
  {
    assert repos[..2][..1][..0] == [] && repos[..2][..1] == repos[..1];
    assert FilterRepos(repos[..1], Some(tokens), WantsPrsAt) == [];
    assert FilterRepos(repos[..2], Some(tokens), WantsPrsAt) == [repos[1]];
  }

  // ---------------------------------------------------------------------------
  // Reading each repository's own token.

  /** The pull-request searches with each repository's own token: one entry per repository. */
  function PrQueriesFixed(repos: seq<string>, pageTokens: Option<seq<PageToken>>): (r: seq<Option<SearchCall>>)
    ensures |r| == |repos|
    ensures forall i :: 0 <= i < |repos| ==>
      r[i] == if WantsPrs(pageTokens, i)
        then Some(PrSearch(repos[i], PrArg(pageTokens, i))) else None
  {
    seq(|repos|, i requires 0 <= i < |repos| =>
      if WantsPrs(pageTokens, i)
      then Some(PrSearch(repos[i], PrArg(pageTokens, i))) else None)
  }

  /** The issue searches with each repository's own token: one entry per repository. */
  function IssueQueriesFixed(repos: seq<string>, pageTokens: Option<seq<PageToken>>): (r: seq<Option<SearchCall>>)
    ensures |r| == |repos|
    ensures forall i :: 0 <= i < |repos| ==>
      r[i] == if WantsIssues(pageTokens, i)
        then Some(IssueSearch(repos[i], IssueArg(pageTokens, i))) else None
  {
    seq(|repos|, i requires 0 <= i < |repos| =>
      if WantsIssues(pageTokens, i)
      then Some(IssueSearch(repos[i], IssueArg(pageTokens, i))) else None)
  }

  /** `makeStatusQuery` with every search and alias read at the repository's own position. */
  function MakeStatusQueryFixed(repos: seq<string>, pageTokens: Option<seq<PageToken>>): (q: StatusQuery)
    ensures q.meta.Keys == set r | r in repos
  {
    var iq, pq := IssueQueriesFixed(repos, pageTokens), PrQueriesFixed(repos, pageTokens);
    StatusQuery(StatusDocument(iq, pq), StatusMeta(repos, iq, pq))
  }

  /**
   * With each repository's own token, a repository asks for its next page of
   * a kind iff its cursor of that kind is set, continuing from that cursor, and
   * `meta` gives it the alias of that search and no other.
   */
  lemma FixedPagesEachRepo(repos: seq<string>, tokens: seq<PageToken>, i: nat)
    requires Aligned(repos, tokens) && NoDup(repos) && i < |repos|
    ensures PrQueriesFixed(repos, Some(tokens))[i] == if Truthy(tokens[i].pr)
      then Some(PrSearch(repos[i], tokens[i].pr)) else None
    ensures IssueQueriesFixed(repos, Some(tokens))[i] == if Truthy(tokens[i].issue)
      then Some(IssueSearch(repos[i], tokens[i].issue)) else None
    ensures MakeStatusQueryFixed(repos, Some(tokens)).meta[repos[i]] ==
      Meta(if Truthy(tokens[i].issue) then Some(NormalizeRepoName(repos[i]) + "_issue") else None,
           if Truthy(tokens[i].pr) then Some(NormalizeRepoName(repos[i]) + "_pr") else None)
  {
    var iq, pq := IssueQueriesFixed(repos, Some(tokens)), PrQueriesFixed(repos, Some(tokens));
    StatusMetaAt(repos, iq, pq, i);
    if Truthy(tokens[i].issue) {
      KeyOfSearch(iq, i);
    }
    if Truthy(tokens[i].pr) {
      KeyOfSearch(pq, i);
    }
  }

  /** On the first round, and whenever every repository is still paging pull requests, the code as written sends the same searches. */
  lemma FixedAgreesWhenAligned(repos: seq<string>, tokens: seq<PageToken>)
    requires Aligned(repos, tokens) && AllPagingPrs(tokens)
    ensures IssueQueries(repos, Some(tokens)) == IssueQueriesFixed(repos, Some(tokens))
    ensures PrQueries(repos, Some(tokens)) == PrQueriesFixed(repos, Some(tokens))
    ensures MakeStatusQuery(repos, Some(tokens)) == MakeStatusQueryFixed(repos, Some(tokens))
    ensures MakeStatusQuery(repos, None) == MakeStatusQueryFixed(repos, None)
  {
    LaterRoundIssues(repos, tokens);
    LaterRoundPrsAligned(repos, tokens);
    assert ValidRepos(repos, None) == repos;
    assert PrRepos(repos, None) == repos;
  }
}
