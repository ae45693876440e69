/**
 * The pagination loop of the dashboard's `componentDidMount` in index.js.
 * Each round sends the batched status query for the repositories still being
 * paged, keeps the first response as the result, appends the nodes of every
 * later page to the result's connection of the same alias, computes the next
 * cursors from each connection's `pageInfo`, and drops the repositories whose
 * searches have no next page. The loop ends when no repository is left.
 *
 * The GitHub API is an oracle: `responses[k]` is what round k receives, with
 * `None` standing for a response without `data`. A run that would need more
 * responses than the oracle holds ends with `Exhausted`.
 */
module Pagination {
  import opened Wrappers
  import opened Seqs
  import opened StatusQuery

  /** One aliased search of a response: its nodes and its `pageInfo`. Nodes are represented by an identifier. */
  datatype Connection = Connection(nodes: seq<string>, hasNextPage: bool, endCursor: Option<string>)

  /** The `data` of a response: its connections by alias. */
  type Data = map<string, Connection>

  /** Why a run ends without a result. */
  datatype FetchError =
    | BadData(query: string)      // the `Bad data` error thrown for a response without `data`
    | MissingAlias(alias: string) // reading the connection of an alias the data does not hold
    | Exhausted                   // the oracle holds no response for the next round

  // ---------------------------------------------------------------------------
  // Merging a page into the result.

  /** `if (name) json.data[name].nodes = json.data[name].nodes.concat(pageJson.data[name].nodes)`. */
  function MergeAlias(json: Data, page: Data, name: Option<string>): Result<Data, FetchError> {
    if !Truthy(name) then Ok(json)
    else if name.value !in json || name.value !in page then Err(MissingAlias(name.value))
    else Ok(json[name.value := json[name.value].(nodes := json[name.value].nodes + page[name.value].nodes)])
  }

  /** One iteration of the merge loop: the issue alias, then the pull-request alias. */
  function MergeRepo(json: Data, page: Data, m: Meta): Result<Data, FetchError> {
    match MergeAlias(json, page, m.issueName)
    case Err(e) => Err(e)
    case Ok(j) => MergeAlias(j, page, m.prName)
  }

  /** The merge loop `for (const repo of repos)`, as a function of the repositories it has visited. */
  function MergeSpec(json: Data, page: Data, meta: map<string, Meta>, repos: seq<string>): Result<Data, FetchError>
    requires forall r :: r in repos ==> r in meta
  {
    if repos == [] then Ok(json)
    else
      var n := |repos| - 1;
      match MergeSpec(json, page, meta, repos[..n])
      case Err(e) => Err(e)
      case Ok(j) => MergeRepo(j, page, meta[repos[n]])
  }

  /** Once the loop has failed, it ends with that error. */
  lemma {:induction false} MergeSpecErrStays(json: Data, page: Data, meta: map<string, Meta>, repos: seq<string>, i: nat)
    requires forall r :: r in repos ==> r in meta
    requires i <= |repos| && MergeSpec(json, page, meta, repos[..i]).Err?
    ensures MergeSpec(json, page, meta, repos) == MergeSpec(json, page, meta, repos[..i])
    decreases |repos| - i
  {
    if i < |repos| {
      assert repos[..i + 1][..i] == repos[..i];
      MergeSpecErrStays(json, page, meta, repos, i + 1);
    } else {
      assert repos[..i] == repos;
    }
  }

  /** The merge loop of one later round. */
  method MergePage(json: Data, page: Data, meta: map<string, Meta>, repos: seq<string>) returns (r: Result<Data, FetchError>)
    requires forall x :: x in repos ==> x in meta
    ensures r == MergeSpec(json, page, meta, repos)
  {
    var acc := json;
    for i := 0 to |repos|
      invariant MergeSpec(json, page, meta, repos[..i]) == Ok(acc)
    {
      assert repos[..i + 1][..i] == repos[..i];
      var m := meta[repos[i]];
      if Truthy(m.issueName) {
        var name := m.issueName.value;
        if name !in acc || name !in page {
          MergeSpecErrStays(json, page, meta, repos, i + 1);
          return Err(MissingAlias(name));
        }
        acc := acc[name := acc[name].(nodes := acc[name].nodes + page[name].nodes)];
      }
      if Truthy(m.prName) {
        var name := m.prName.value;
        if name !in acc || name !in page {
          MergeSpecErrStays(json, page, meta, repos, i + 1);
          return Err(MissingAlias(name));
        }
        acc := acc[name := acc[name].(nodes := acc[name].nodes + page[name].nodes)];
      }
    }
    assert repos[..|repos|] == repos;
    return Ok(acc);
  }

  /** The aliases a meta entry names. */
  function AliasesOf(m: Meta): (r: seq<string>)
    ensures forall a :: a in r <==> (Truthy(m.issueName) && a == m.issueName.value) || (Truthy(m.prName) && a == m.prName.value)
  {
    (if Truthy(m.issueName) then [m.issueName.value] else []) + (if Truthy(m.prName) then [m.prName.value] else [])
  }

  /** The aliases the merge loop visits, in order. */
  function Aliases(meta: map<string, Meta>, repos: seq<string>): seq<string>
    requires forall r :: r in repos ==> r in meta
  {
    if repos == [] then [] else Aliases(meta, repos[..|repos| - 1]) + AliasesOf(meta[repos[|repos| - 1]])
  }

  /** The result holds the same aliases, each connection's earlier nodes first and its `pageInfo` unchanged. */
  predicate Extends(before: Data, after: Data) {
    && after.Keys == before.Keys
    && forall a :: a in before ==>
      && before[a].nodes <= after[a].nodes
      && after[a].hasNextPage == before[a].hasNextPage
      && after[a].endCursor == before[a].endCursor
  }

  lemma ExtendsTrans(a: Data, b: Data, c: Data)
    requires Extends(a, b) && Extends(b, c)
    ensures Extends(a, c)
  {
    forall k | k in a ensures a[k].nodes <= c[k].nodes {
      assert a[k].nodes == b[k].nodes[..|a[k].nodes|];
    }
  }

  lemma MergeAliasExtends(json: Data, page: Data, name: Option<string>)
    requires MergeAlias(json, page, name).Ok?
    ensures Extends(json, MergeAlias(json, page, name).value)
  {
  }

  /**
   * The merge succeeds iff every visited alias is in both the result and the
   * page, and then it only appends: no alias is added or removed, earlier
   * nodes stay first, `pageInfo` is kept.
   */
  lemma {:induction false} MergeOkIff(json: Data, page: Data, meta: map<string, Meta>, repos: seq<string>)
    requires forall r :: r in repos ==> r in meta
    ensures MergeSpec(json, page, meta, repos).Ok? <==>
      forall a :: a in Aliases(meta, repos) ==> a in json && a in page
    ensures MergeSpec(json, page, meta, repos).Ok? ==> Extends(json, MergeSpec(json, page, meta, repos).value)
  {
    if repos != [] {
      var n := |repos| - 1;
      var front := repos[..n];
      MergeOkIff(json, page, meta, front);
      var m := meta[repos[n]];
      assert Aliases(meta, repos) == Aliases(meta, front) + AliasesOf(m);
      var prev := MergeSpec(json, page, meta, front);
      if prev.Ok? {
        var j := prev.value;
        var mid := MergeAlias(j, page, m.issueName);
        if mid.Ok? {
          MergeAliasExtends(j, page, m.issueName);
          ExtendsTrans(json, j, mid.value);
          if MergeAlias(mid.value, page, m.prName).Ok? {
            MergeAliasExtends(mid.value, page, m.prName);
            ExtendsTrans(json, mid.value, MergeAlias(mid.value, page, m.prName).value);
          }
        }
      }
    }
  }

  /**
   * With no alias visited twice, each visited alias's connection becomes its
   * earlier nodes followed by the page's nodes, and every other connection
   * stays as it was.
   */
  lemma {:induction false} MergeNodes(json: Data, page: Data, meta: map<string, Meta>, repos: seq<string>)
    requires forall r :: r in repos ==> r in meta
    requires MergeSpec(json, page, meta, repos).Ok? && NoDup(Aliases(meta, repos))
    ensures var j := MergeSpec(json, page, meta, repos).value;
      && j.Keys == json.Keys
      && forall a :: a in json ==>
        j[a] == json[a].(nodes := json[a].nodes + (if a in Aliases(meta, repos) && a in page then page[a].nodes else []))
  {
    if repos != [] {
      var n := |repos| - 1;
      var front := repos[..n];
      var m := meta[repos[n]];
      var fa, ma := Aliases(meta, front), AliasesOf(m);
      assert Aliases(meta, repos) == fa + ma;
      NoDupSplit(fa, ma);
      var jf := MergeSpec(json, page, meta, front).value;
      MergeNodes(json, page, meta, front);
      MergeRepoNodes(jf, page, m);
      var j := MergeRepo(jf, page, m).value;
      assert MergeSpec(json, page, meta, repos).value == j;
      forall a | a in json
        ensures j[a] == json[a].(nodes := json[a].nodes + (if a in fa + ma && a in page then page[a].nodes else []))
      {
        NodesTwoSteps(json[a], jf[a], j[a], if a in page then page[a].nodes else [], a in fa, a in ma);
      }
    }
  }

  /** Appending in two steps, at most one of which adds anything, appends once. */
  lemma NodesTwoSteps(c: Connection, mid: Connection, last: Connection, extra: seq<string>, inFront: bool, inLast: bool)
    requires inFront ==> !inLast
    requires mid == c.(nodes := c.nodes + (if inFront then extra else []))
    requires last == mid.(nodes := mid.nodes + (if inLast then extra else []))
    ensures last == c.(nodes := c.nodes + (if inFront || inLast then extra else []))
  {
  }

  /** A sequence without repetitions splits into two without repetitions and without common elements. */
  lemma NoDupSplit(xs: seq<string>, ys: seq<string>)
    requires NoDup(xs + ys)
    ensures NoDup(xs) && NoDup(ys) && forall a :: a in ys ==> a !in xs
  {
    var all := xs + ys;
    forall x, y | 0 <= x < y < |xs| ensures xs[x] != xs[y] {
      assert all[x] == xs[x] && all[y] == xs[y];
    }
    forall x, y | 0 <= x < y < |ys| ensures ys[x] != ys[y] {
      assert all[|xs| + x] == ys[x] && all[|xs| + y] == ys[y];
    }
    forall x, y | 0 <= x < |xs| && 0 <= y < |ys| ensures xs[x] != ys[y] {
      assert all[x] == xs[x] && all[|xs| + y] == ys[y];
    }
  }

  /** One iteration appends the page's nodes to each alias of the repository, once. */
  lemma MergeRepoNodes(j: Data, page: Data, m: Meta)
    requires MergeRepo(j, page, m).Ok? && NoDup(AliasesOf(m))
    ensures var r := MergeRepo(j, page, m).value;
      && r.Keys == j.Keys
      && forall a :: a in j ==>
        r[a] == j[a].(nodes := j[a].nodes + (if a in AliasesOf(m) && a in page then page[a].nodes else []))
  {
    if Truthy(m.issueName) && Truthy(m.prName) {
      assert AliasesOf(m)[0] == m.issueName.value && AliasesOf(m)[1] == m.prName.value;
    }
  }

  // ---------------------------------------------------------------------------
  // The next cursors.

  /** `name && pageJson.data[name].pageInfo.hasNextPage ? endCursor : null`. */
  function CursorOf(page: Data, name: Option<string>): Result<Option<string>, FetchError> {
    if !Truthy(name) then Ok(None)
    else if name.value !in page then Err(MissingAlias(name.value))
    else if page[name.value].hasNextPage then Ok(page[name.value].endCursor)
    else Ok(None)
  }

  /** The token of one repository: `{ issue, pr }` when either cursor is set, `null` otherwise. */
  function NextToken(page: Data, m: Meta): Result<Option<PageToken>, FetchError> {
    match CursorOf(page, m.issueName)
    case Err(e) => Err(e)
    case Ok(issue) =>
      match CursorOf(page, m.prName)
      case Err(e) => Err(e)
      case Ok(pr) => Ok(if Truthy(issue) || Truthy(pr) then Some(PageToken(issue, pr)) else None)
  }

  /** Whether a search of the page has a next page with a cursor to continue from. */
  predicate HasNext(page: Data, name: Option<string>) {
    Truthy(name) && name.value in page && page[name.value].hasNextPage && Truthy(page[name.value].endCursor)
  }

  /**
   * A repository keeps a token iff one of its searches has a next page with a
   * cursor; each cursor of the token is that search's `endCursor` when it has
   * a next page, and nothing otherwise.
   */
  lemma NextTokenIff(page: Data, m: Meta)
    requires NextToken(page, m).Ok?
    ensures var t := NextToken(page, m).value;
      && (t.Some? <==> HasNext(page, m.issueName) || HasNext(page, m.prName))
      && (t.Some? ==> t.value.issue == (if Truthy(m.issueName) && page[m.issueName.value].hasNextPage then page[m.issueName.value].endCursor else None))
      && (t.Some? ==> t.value.pr == (if Truthy(m.prName) && page[m.prName.value].hasNextPage then page[m.prName.value].endCursor else None))
  {
  }

  /** `curRepos.map(r => pageQuery.meta[r]).map(…)`: the tokens of the repositories, in order. */
  function NextTokens(page: Data, meta: map<string, Meta>, repos: seq<string>): (r: Result<seq<Option<PageToken>>, FetchError>)
    requires forall x :: x in repos ==> x in meta
    ensures r.Ok? ==> |r.value| == |repos|
    ensures r.Ok? ==> forall i :: 0 <= i < |repos| ==> NextToken(page, meta[repos[i]]) == Ok(r.value[i])
  {
    if repos == [] then Ok([])
    else
      match NextToken(page, meta[repos[0]])
      case Err(e) => Err(e)
      case Ok(t) =>
        match NextTokens(page, meta, repos[1..])
        case Err(e) => Err(e)
        case Ok(ts) => Ok([t] + ts)
  }

  /** `curRepos.filter((_r, i) => tokens[i])`. */
  function KeptRepos(repos: seq<string>, tokens: seq<Option<PageToken>>): (r: seq<string>)
    requires |tokens| == |repos|
    ensures forall i :: 0 <= i < |repos| && tokens[i].Some? ==> repos[i] in r
    ensures forall x :: x in r ==> x in repos
  {
    if repos == [] then []
    else (if tokens[0].Some? then [repos[0]] else []) + KeptRepos(repos[1..], tokens[1..])
  }

  /** `tokens.filter(t => t)`. */
  function Present(tokens: seq<Option<PageToken>>): (r: seq<PageToken>)
    ensures forall k :: 0 <= k < |r| ==> Some(r[k]) in tokens
  {
    if tokens == [] then [] else (if tokens[0].Some? then [tokens[0].value] else []) + Present(tokens[1..])
  }

  /** The two filters keep as many entries. */
  lemma {:induction false} KeptLength(repos: seq<string>, tokens: seq<Option<PageToken>>)
    requires |tokens| == |repos|
    ensures |KeptRepos(repos, tokens)| == |Present(tokens)|
  {
    if repos != [] {
      KeptLength(repos[1..], tokens[1..]);
    }
  }

  /** The k-th remaining repository and the k-th remaining token come from the same position. */
  lemma {:induction false} KeptAt(repos: seq<string>, tokens: seq<Option<PageToken>>, k: nat)
    requires |tokens| == |repos| && k < |Present(tokens)|
    ensures k < |KeptRepos(repos, tokens)|
    ensures exists i :: 0 <= i < |repos| && KeptRepos(repos, tokens)[k] == repos[i] && tokens[i] == Some(Present(tokens)[k])
  {
    KeptLength(repos, tokens);
    var kr, pr := KeptRepos(repos, tokens), Present(tokens);
    var kt, pt := KeptRepos(repos[1..], tokens[1..]), Present(tokens[1..]);
    var h: seq<string>, g: seq<PageToken> := if tokens[0].Some? then [repos[0]] else [], if tokens[0].Some? then [tokens[0].value] else [];
    assert kr == h + kt && pr == g + pt;
    if tokens[0].Some? && k == 0 {
      assert kr[0] == repos[0] && tokens[0] == Some(pr[0]);
    } else {
      var k' := k - |h|;
      assert kr[k] == kt[k'] && pr[k] == pt[k'];
      KeptAt(repos[1..], tokens[1..], k');
      var i :| 0 <= i < |repos[1..]| && kt[k'] == repos[1..][i] && tokens[1..][i] == Some(pt[k']);
      assert repos[1..][i] == repos[i + 1] && tokens[1..][i] == tokens[i + 1];
    }
  }

  /**
   * The two filters stay in step: the k-th remaining repository is paired
   * with the k-th remaining token, and both come from the same position.
   */
  lemma KeptInStep(repos: seq<string>, tokens: seq<Option<PageToken>>)
    requires |tokens| == |repos|
    ensures |KeptRepos(repos, tokens)| == |Present(tokens)|
    ensures forall k :: 0 <= k < |Present(tokens)| ==>
      (exists i :: 0 <= i < |repos| && KeptRepos(repos, tokens)[k] == repos[i] && tokens[i] == Some(Present(tokens)[k]))
  {
    KeptLength(repos, tokens);
    forall k | 0 <= k < |Present(tokens)|
      ensures exists i :: 0 <= i < |repos| && KeptRepos(repos, tokens)[k] == repos[i] && tokens[i] == Some(Present(tokens)[k])
    {
      KeptAt(repos, tokens, k);
    }
  }

  /** Every token passed to the next round has a cursor of at least one kind. */
  lemma PresentHaveCursor(page: Data, meta: map<string, Meta>, repos: seq<string>)
    requires forall x :: x in repos ==> x in meta
    requires NextTokens(page, meta, repos).Ok?
    ensures forall k :: 0 <= k < |Present(NextTokens(page, meta, repos).value)| ==>
      var t := Present(NextTokens(page, meta, repos).value)[k]; Truthy(t.issue) || Truthy(t.pr)
  {
    var ts := NextTokens(page, meta, repos).value;
    forall k | 0 <= k < |Present(ts)| ensures Truthy(Present(ts)[k].issue) || Truthy(Present(ts)[k].pr) {
      var i :| 0 <= i < |ts| && ts[i] == Some(Present(ts)[k]);
      assert NextToken(page, meta[repos[i]]) == Ok(ts[i]);
    }
  }

  /** The next round's repositories and tokens are aligned, one token per repository. */
  lemma NextRoundAligned(repos: seq<string>, tokens: seq<Option<PageToken>>)
    requires |tokens| == |repos|
    ensures Aligned(KeptRepos(repos, tokens), Present(tokens))
  {
    KeptInStep(repos, tokens);
  }

  // ---------------------------------------------------------------------------
  // The loop.

  /** What a round leaves for the next: the result so far, and the repositories and tokens still being paged. */
  datatype Next = Next(json: Data, repos: seq<string>, tokens: seq<PageToken>)

  /**
   * One round on a page with `data`: the page becomes the result (first round)
   * or is merged into it, then the next tokens are read and the repositories
   * without one are dropped.
   */
  function Advance(curRepos: seq<string>, curTokens: Option<seq<PageToken>>, json: Option<Data>, page: Data): Result<Next, FetchError> {
    var meta := MakeStatusQuery(curRepos, curTokens).meta;
    var merged := if json.None? then Ok(page) else MergeSpec(json.value, page, meta, curRepos);
    if merged.Err? then Err(merged.error)
    else
      var tokens := NextTokens(page, meta, curRepos);
      if tokens.Err? then Err(tokens.error)
      else Ok(Next(merged.value, KeptRepos(curRepos, tokens.value), Present(tokens.value)))
  }

  /**
   * The rest of the run from round `round`, given the repositories and tokens
   * of that round and the result so far (`None` before the first response).
   */
  function FetchSpec(curRepos: seq<string>, curTokens: Option<seq<PageToken>>, json: Option<Data>,
                     responses: seq<Option<Data>>, round: nat): Result<Data, FetchError>
    decreases |responses| - round
  {
    if round >= |responses| then Err(Exhausted)
    else
      match responses[round]
      case None => Err(BadData(MakeStatusQuery(curRepos, curTokens).query))
      case Some(page) =>
        match Advance(curRepos, curTokens, json, page)
        case Err(e) => Err(e)
        case Ok(n) =>
          if n.repos == [] then Ok(n.json)
          else FetchSpec(n.repos, Some(n.tokens), Some(n.json), responses, round + 1)
  }

  /** The body of one iteration of the loop, after the response has been checked for `data`. */
  method AdvanceRound(curRepos: seq<string>, curTokens: Option<seq<PageToken>>, json: Option<Data>, page: Data)
    returns (r: Result<Next, FetchError>)
    ensures r == Advance(curRepos, curTokens, json, page)
  {
    var pageQuery := MakeStatusQuery(curRepos, curTokens);
    var merged := page;
    if json.Some? {
      var m := MergePage(json.value, page, pageQuery.meta, curRepos);
      if m.Err? {
        return Err(m.error);
      }
      merged := m.value;
    }
    var tokens := NextTokens(page, pageQuery.meta, curRepos);
    if tokens.Err? {
      return Err(tokens.error);
    }
    return Ok(Next(merged, KeptRepos(curRepos, tokens.value), Present(tokens.value)));
  }

  /** `componentDidMount`'s `do … while (curRepos.length > 0)` loop over the oracle's responses. */
  method FetchStatus(repos: seq<string>, responses: seq<Option<Data>>) returns (r: Result<Data, FetchError>)
    ensures r == FetchSpec(repos, None, None, responses, 0)
  {
    var curRepos, curTokens, json := repos, None, None;
    var round := 0;
    while true
      invariant round <= |responses|
      invariant FetchSpec(curRepos, curTokens, json, responses, round) == FetchSpec(repos, None, None, responses, 0)
      decreases |responses| - round
    {
      if round == |responses| {
        return Err(Exhausted);
      }
      var pageJson := responses[round];
      if pageJson.None? {
        return Err(BadData(MakeStatusQuery(curRepos, curTokens).query));
      }
      var next := AdvanceRound(curRepos, curTokens, json, pageJson.value);
      if next.Err? {
        return Err(next.error);
      }
      curRepos, curTokens, json := next.value.repos, Some(next.value.tokens), Some(next.value.json);
      round := round + 1;
      if curRepos == [] {
        return Ok(json.value);
      }
    }
  }

  /** A first response without `data` ends the run with the error naming the first query. */
  lemma FirstBadData(repos: seq<string>, responses: seq<Option<Data>>)
    requires responses != [] && responses[0].None?
    ensures FetchSpec(repos, None, None, responses, 0) == Err(BadData(MakeStatusQuery(repos, None).query))
  {
  }

  /** From any round on, a result extends the result so far. */
  lemma {:induction false} FetchExtends(curRepos: seq<string>, curTokens: Option<seq<PageToken>>, acc: Data,
                                        responses: seq<Option<Data>>, round: nat)
    requires FetchSpec(curRepos, curTokens, Some(acc), responses, round).Ok?
    ensures Extends(acc, FetchSpec(curRepos, curTokens, Some(acc), responses, round).value)
    decreases |responses| - round
  {
    var pageQuery := MakeStatusQuery(curRepos, curTokens);
    var page := responses[round].value;
    MergeOkIff(acc, page, pageQuery.meta, curRepos);
    var merged := MergeSpec(acc, page, pageQuery.meta, curRepos).value;
    var tokens := NextTokens(page, pageQuery.meta, curRepos).value;
    if KeptRepos(curRepos, tokens) != [] {
      FetchExtends(KeptRepos(curRepos, tokens), Some(Present(tokens)), merged, responses, round + 1);
      ExtendsTrans(acc, merged, FetchSpec(curRepos, curTokens, Some(acc), responses, round).value);
    }
  }

  /**
   * A run that ends with a result had data in its first response, and the
   * result holds exactly that response's aliases, each with the first page's
   * nodes first and the first page's `pageInfo`.
   */
  lemma FetchExtendsFirstPage(repos: seq<string>, responses: seq<Option<Data>>)
    requires FetchSpec(repos, None, None, responses, 0).Ok?
    ensures responses != [] && responses[0].Some?
    ensures Extends(responses[0].value, FetchSpec(repos, None, None, responses, 0).value)
  {
    var page := responses[0].value;
    var pageQuery := MakeStatusQuery(repos, None);
    var tokens := NextTokens(page, pageQuery.meta, repos).value;
    if KeptRepos(repos, tokens) != [] {
      FetchExtends(KeptRepos(repos, tokens), Some(Present(tokens)), page, responses, 1);
    }
  }

  /** No search of the page has a next page. */
  predicate LastPage(page: Data) {
    forall a :: a in page ==> !page[a].hasNextPage
  }

  lemma {:induction false} LastPageNoTokens(page: Data, meta: map<string, Meta>, repos: seq<string>)
    requires forall x :: x in repos ==> x in meta
    requires LastPage(page) && NextTokens(page, meta, repos).Ok?
    ensures KeptRepos(repos, NextTokens(page, meta, repos).value) == []
  {
    if repos != [] {
      LastPageNoTokens(page, meta, repos[1..]);
    }
  }

  /**
   * When the first response holds both aliases of every repository and none
   * of its searches has a next page, the run makes one round and its result
   * is that response.
   */
  lemma OneRound(repos: seq<string>, responses: seq<Option<Data>>, page: Data)
    requires responses != [] && responses[0] == Some(page) && LastPage(page)
    requires forall r :: r in repos ==> NormalizeRepoName(r) + "_issue" in page && NormalizeRepoName(r) + "_pr" in page
    ensures FetchSpec(repos, None, None, responses, 0) == Ok(page)
  {
    var meta := MakeStatusQuery(repos, None).meta;
    assert NextTokens(page, meta, repos).Ok? && KeptRepos(repos, NextTokens(page, meta, repos).value) == [] by {
      FirstRoundMeta(repos);
      forall x, a | x in repos && a in AliasesOf(meta[x]) ensures a in page {
        assert meta[x] == FirstMeta(x);
      }
      TokensOk(page, meta, repos);
      LastPageNoTokens(page, meta, repos);
    }
  }

  /** The cursors can be read when every alias of every repository is in the page. */
  lemma {:induction false} TokensOk(page: Data, meta: map<string, Meta>, repos: seq<string>)
    requires forall x :: x in repos ==> x in meta
    requires forall x, a :: x in repos && a in AliasesOf(meta[x]) ==> a in page
    ensures NextTokens(page, meta, repos).Ok?
  {
    if repos != [] {
      var m := meta[repos[0]];
      assert forall a :: a in AliasesOf(m) ==> a in page;
      assert NextToken(page, m).Ok?;
      TokensOk(page, meta, repos[1..]);
    }
  }
}
