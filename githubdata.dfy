/**
 * The triage search of githubData.js: the three GitHub search strings built
 * from the scanned repositories and the company users, and the
 * classification of what the searches return into "new" and "stale" items.
 * Timestamps are integers (milliseconds); `toISOString` is a formatter
 * supplied by the caller; the two query results are inputs.
 */
module GithubData {
  import opened Wrappers
  import opened Seqs
  import opened SearchTerms

  // ---------------------------------------------------------------------------
  // Search strings.

  /** `repos.map(r => `repo:${r}`)`. */
  function RepoClauses(repos: seq<string>): (r: seq<string>)
    ensures |r| == |repos|
    ensures forall i :: 0 <= i < |r| ==> r[i] == "repo:" + repos[i]
  {
    if repos == [] then [] else ["repo:" + repos[0]] + RepoClauses(repos[1..])
  }

  /** `users.map(u => `-author:${u} ${commenter}${u}`)`: one clause per user, in order. */
  function UserClauses(users: seq<string>, commenter: string): (r: seq<string>)
    ensures |r| == |users|
    ensures forall i :: 0 <= i < |r| ==> r[i] == "-author:" + users[i] + " " + commenter + users[i]
  {
    if users == [] then [] else ["-author:" + users[0] + " " + commenter + users[0]] + UserClauses(users[1..], commenter)
  }

  /** `users.map(u => `-author:${u} -commenter:${u}`)`: items a user neither opened nor commented on. */
  function NewUserClauses(users: seq<string>): seq<string> {
    UserClauses(users, "-commenter:")
  }

  /** `users.map(u => `-author:${u} commenter:${u}`)`: items a user did not open but commented on. */
  function StaleUserClauses(users: seq<string>): seq<string> {
    UserClauses(users, "commenter:")
  }

  /** `makeNewSearch(users, repos)`. */
  function MakeNewSearch(users: seq<string>, repos: seq<string>): string {
    Join(RepoClauses(repos), " ") + " " + Join(NewUserClauses(users), " ") + " is:open"
  }

  /** The part both stale searches share: repositories, users, `is:open`. */
  function StalePrefix(users: seq<string>, repos: seq<string>): string {
    Join(RepoClauses(repos), " ") + " " + Join(StaleUserClauses(users), " ") + " is:open"
  }

  /** `makeDefStaleSearch(users, repos, date)`: open items not updated since the date. */
  function MakeDefStaleSearch(users: seq<string>, repos: seq<string>, date: int, toIso: int -> string): string {
    StalePrefix(users, repos) + " updated:<=" + toIso(date)
  }

  /** `makeMaybeStaleSearch(users, repos, date)`: open items updated since the date but created before it. */
  function MakeMaybeStaleSearch(users: seq<string>, repos: seq<string>, date: int, toIso: int -> string): string {
    StalePrefix(users, repos) + " updated:>" + toIso(date) + " created:<=" + toIso(date)
  }

  // ---------------------------------------------------------------------------
  // How GitHub reads the search strings.

  /** The qualifiers `-author:u` and `sign commenter:u` for every user, in order. */
  function UserTerms(users: seq<string>, commenter: string): (r: seq<string>)
    ensures |r| == 2 * |users|
    ensures forall i :: 0 <= i < |users| ==>
      r[2 * i] == "-author:" + users[i] && r[2 * i + 1] == commenter + users[i]
  {
    if users == [] then []
    else
      var rest := UserTerms(users[1..], commenter);
      var r := ["-author:" + users[0], commenter + users[0]] + rest;
      assert forall i :: 0 <= i < |users| ==> r[2 * i] == "-author:" + users[i] && r[2 * i + 1] == commenter + users[i] by {
        forall i | 1 <= i < |users| ensures r[2 * i] == "-author:" + users[i] && r[2 * i + 1] == commenter + users[i] {
          var j := i - 1;
          assert 2 * i == 2 + 2 * j && users[i] == users[1..][j];
        }
      }
      r
  }

  /** Every word is free of spaces and quotes. */
  predicate AllPlain(xs: seq<string>) {
    forall i :: 0 <= i < |xs| ==> IsPlain(xs[i])
  }

  lemma PlainPrefixed(prefix: string, x: string)
    requires prefix != [] && IsPlain(prefix) && IsPlain(x)
    ensures IsTerm(prefix + x)
  {
    assert IsPlain(prefix + x) by {
      forall k | 0 <= k < |prefix + x| ensures (prefix + x)[k] != ' ' && (prefix + x)[k] != '"' {
        if k < |prefix| { assert (prefix + x)[k] == prefix[k]; } else { assert (prefix + x)[k] == x[k - |prefix|]; }
      }
    }
    PlainIsTerm(prefix + x);
  }

  lemma RepoClausesAreTerms(repos: seq<string>)
    requires AllPlain(repos)
    ensures forall i :: 0 <= i < |repos| ==> IsTerm(RepoClauses(repos)[i])
  {
    forall i | 0 <= i < |repos| ensures IsTerm(RepoClauses(repos)[i]) {
      PlainPrefixed("repo:", repos[i]);
    }
  }

  /** One user's two qualifiers, then more text. */
  lemma UserPairThenRest(u: string, commenter: string, rest: string)
    requires IsPlain(u) && commenter != [] && IsPlain(commenter)
    ensures Terms(("-author:" + u) + " " + ((commenter + u) + " " + rest)) == ["-author:" + u, commenter + u] + Terms(rest)
  {
    PlainPrefixed("-author:", u);
    PlainPrefixed(commenter, u);
    TermThenRest("-author:" + u, (commenter + u) + " " + rest);
    TermThenRest(commenter + u, rest);
  }

  /** A user clause is the user's two qualifiers joined by a space. */
  lemma UserClauseParts(u: string, commenter: string, clause: string)
    requires clause == "-author:" + u + " " + commenter + u
    ensures clause == ("-author:" + u) + " " + (commenter + u)
  {
  }

  /** The user terms of a non-empty list: the first user's pair, then the rest's terms. */
  lemma UserTermsCons(users: seq<string>, commenter: string)
    requires users != []
    ensures UserTerms(users, commenter) == ["-author:" + users[0], commenter + users[0]] + UserTerms(users[1..], commenter)
  {
  }

  /** The first user's clause of a group, followed by the rest of the group and more text. */
  lemma UserGroupStep(users: seq<string>, clauses: seq<string>, commenter: string, rest: string)
    requires users != [] && IsPlain(users[0]) && commenter != [] && IsPlain(commenter)
    requires |clauses| == |users| && clauses[0] == "-author:" + users[0] + " " + commenter + users[0]
    ensures Terms(Join(clauses, " ") + " " + rest) ==
      ["-author:" + users[0], commenter + users[0]] +
      Terms(if |users| == 1 then rest else Join(clauses[1..], " ") + " " + rest)
  {
    var u := users[0];
    var tailText := if |users| == 1 then rest else Join(clauses[1..], " ") + " " + rest;
    JoinThenRest(clauses, " ", rest);
    UserClauseParts(u, commenter, clauses[0]);
    Regroup2("-author:" + u, commenter + u, tailText);
    UserPairThenRest(u, commenter, tailText);
  }

  /** A user group is read as the user's two qualifiers per user, then whatever follows the group. */
  lemma {:induction false} UserGroupThenRest(users: seq<string>, clauses: seq<string>, commenter: string, rest: string)
    requires AllPlain(users) && commenter != [] && IsPlain(commenter)
    requires |clauses| == |users|
    requires forall i :: 0 <= i < |users| ==> clauses[i] == "-author:" + users[i] + " " + commenter + users[i]
    ensures Terms(Join(clauses, " ") + " " + rest) == UserTerms(users, commenter) + Terms(rest)
  {
    if users == [] {
      SpaceThenTerms(rest);
    } else {
      UserGroupStep(users, clauses, commenter, rest);
      UserTermsCons(users, commenter);
      var pair, more := ["-author:" + users[0], commenter + users[0]], UserTerms(users[1..], commenter);
      if |users| == 1 {
        assert more == [] && pair + more == pair;
      } else {
        UserGroupThenRest(users[1..], clauses[1..], commenter, rest);
        AppendAssoc3(pair, more, Terms(rest));
      }
    }
  }

  lemma IsOpenIsTerm()
    ensures IsTerm("is:open")
  {
    PlainIsTerm("is:open");
  }

  /** Repository clauses and a user group, followed by a space and more text, are read as the clauses, the user terms, then the rest. */
  lemma GroupsThenRest(repos: seq<string>, users: seq<string>, clauses: seq<string>, commenter: string, rest: string)
    requires AllPlain(users) && AllPlain(repos) && commenter != [] && IsPlain(commenter)
    requires |clauses| == |users|
    requires forall i :: 0 <= i < |users| ==> clauses[i] == "-author:" + users[i] + " " + commenter + users[i]
    ensures Terms(Join(RepoClauses(repos), " ") + " " + Join(clauses, " ") + " " + rest) ==
      RepoClauses(repos) + UserTerms(users, commenter) + Terms(rest)
  {
    var rg, ug := Join(RepoClauses(repos), " "), Join(clauses, " ");
    Regroup2(rg, ug, rest);
    RepoClausesAreTerms(repos);
    JoinedTermsThenRest(RepoClauses(repos), ug + " " + rest);
    UserGroupThenRest(users, clauses, commenter, rest);
    AppendAssoc3(RepoClauses(repos), UserTerms(users, commenter), Terms(rest));
  }

  /** The same, when the rest is a single term. */
  lemma GroupsThenTail(repos: seq<string>, users: seq<string>, clauses: seq<string>, commenter: string, tail: string)
    requires AllPlain(users) && AllPlain(repos) && commenter != [] && IsPlain(commenter) && IsTerm(tail)
    requires |clauses| == |users|
    requires forall i :: 0 <= i < |users| ==> clauses[i] == "-author:" + users[i] + " " + commenter + users[i]
    ensures Terms(Join(RepoClauses(repos), " ") + " " + Join(clauses, " ") + " " + tail) ==
      RepoClauses(repos) + UserTerms(users, commenter) + [tail]
  {
    GroupsThenRest(repos, users, clauses, commenter, tail);
    TermAlone(tail);
  }

  /** The new-items search split at its spaces between groups. */
  lemma NewSearchShape(users: seq<string>, repos: seq<string>)
    ensures MakeNewSearch(users, repos) == Join(RepoClauses(repos), " ") + " " + Join(NewUserClauses(users), " ") + " " + "is:open"
  {
  }

  /**
   * GitHub reads the new-items search as the `repo:` qualifiers in input
   * order, then `-author:u` and `-commenter:u` for each user in input order,
   * then `is:open`. An empty list contributes no qualifier.
   */
  lemma NewSearchTerms(users: seq<string>, repos: seq<string>)
    requires AllPlain(users) && AllPlain(repos)
    ensures Terms(MakeNewSearch(users, repos)) == RepoClauses(repos) + UserTerms(users, "-commenter:") + ["is:open"]
  {
    NewSearchShape(users, repos);
    IsOpenIsTerm();
    GroupsThenTail(repos, users, NewUserClauses(users), "-commenter:", "is:open");
  }

  /** The stale searches are read as the repositories, then `-author:u commenter:u` per user, then `is:open` and the rest. */
  lemma StalePrefixTerms(users: seq<string>, repos: seq<string>, rest: string)
    requires AllPlain(users) && AllPlain(repos)
    ensures Terms(StalePrefix(users, repos) + " " + rest) == RepoClauses(repos) + UserTerms(users, "commenter:") + ["is:open"] + Terms(rest)
  {
    var rg, ug := Join(RepoClauses(repos), " "), Join(StaleUserClauses(users), " ");
    var open := "is:open";
    assert StalePrefix(users, repos) + " " + rest == rg + " " + ug + " " + (open + " " + rest);
    GroupsThenRest(repos, users, StaleUserClauses(users), "commenter:", open + " " + rest);
    IsOpenIsTerm();
    TermThenRest(open, rest);
  }

  /** The date qualifiers after a stale prefix, split at their spaces. */
  lemma DefStaleTail(p: string, iso: string)
    ensures p + " updated:<=" + iso == p + " " + ("updated:<=" + iso)
  {
  }

  lemma MaybeStaleTail(p: string, iso: string)
    ensures p + " updated:>" + iso + " created:<=" + iso == p + " " + (("updated:>" + iso) + " " + ("created:<=" + iso))
  {
  }

  /** A stale prefix followed by one plain-suffixed qualifier. */
  lemma StalePrefixThenOne(users: seq<string>, repos: seq<string>, q: string, x: string)
    requires AllPlain(users) && AllPlain(repos) && q != [] && IsPlain(q) && IsPlain(x)
    ensures Terms(StalePrefix(users, repos) + " " + (q + x)) ==
      RepoClauses(repos) + UserTerms(users, "commenter:") + ["is:open", q + x]
  {
    StalePrefixTerms(users, repos, q + x);
    PlainPrefixed(q, x);
    TermAlone(q + x);
  }

  /** A stale prefix followed by two plain-suffixed qualifiers. */
  lemma StalePrefixThenTwo(users: seq<string>, repos: seq<string>, q1: string, q2: string, x: string)
    requires AllPlain(users) && AllPlain(repos) && q1 != [] && IsPlain(q1) && q2 != [] && IsPlain(q2) && IsPlain(x)
    ensures Terms(StalePrefix(users, repos) + " " + ((q1 + x) + " " + (q2 + x))) ==
      RepoClauses(repos) + UserTerms(users, "commenter:") + ["is:open", q1 + x, q2 + x]
  {
    StalePrefixTerms(users, repos, (q1 + x) + " " + (q2 + x));
    PlainPrefixed(q1, x);
    PlainPrefixed(q2, x);
    TermThenRest(q1 + x, q2 + x);
    TermAlone(q2 + x);
  }

  /** The definitely-stale search ends with `is:open updated:<=ISO(date)`. */
  lemma DefStaleSearchTerms(users: seq<string>, repos: seq<string>, date: int, toIso: int -> string)
    requires AllPlain(users) && AllPlain(repos) && IsPlain(toIso(date))
    ensures Terms(MakeDefStaleSearch(users, repos, date, toIso)) ==
      RepoClauses(repos) + UserTerms(users, "commenter:") + ["is:open", "updated:<=" + toIso(date)]
  {
    var iso := toIso(date);
    DefStaleTail(StalePrefix(users, repos), iso);
    StalePrefixThenOne(users, repos, "updated:<=", iso);
  }

  /** The maybe-stale search ends with `is:open updated:>ISO(date) created:<=ISO(date)`, one date in both. */
  lemma MaybeStaleSearchTerms(users: seq<string>, repos: seq<string>, date: int, toIso: int -> string)
    requires AllPlain(users) && AllPlain(repos) && IsPlain(toIso(date))
    ensures Terms(MakeMaybeStaleSearch(users, repos, date, toIso)) ==
      RepoClauses(repos) + UserTerms(users, "commenter:") + ["is:open", "updated:>" + toIso(date), "created:<=" + toIso(date)]
  {
    var iso := toIso(date);
    MaybeStaleTail(StalePrefix(users, repos), iso);
    StalePrefixThenTwo(users, repos, "updated:>", "created:<=", iso);
  }

  /** Both stale searches start with the same text, up to and including `is:open`. */
  lemma StaleSearchesSharePrefix(users: seq<string>, repos: seq<string>, date: int, toIso: int -> string)
    ensures var p := StalePrefix(users, repos);
      var d := MakeDefStaleSearch(users, repos, date, toIso);
      var m := MakeMaybeStaleSearch(users, repos, date, toIso);
      |p| <= |d| && |p| <= |m| && d[..|p|] == p && m[..|p|] == p
  {
  }

  // ---------------------------------------------------------------------------
  // The query variables.

  /** The settings getGithubData receives: `{ repos, users, staleTime }`. */
  datatype TriageOptions = TriageOptions(repos: seq<string>, users: seq<string>, staleTime: int)

  /** The variables of the two queries getGithubData sends. */
  datatype TriageRequest = TriageRequest(newQuery: string, defStaleQuery: string, maybeStaleQuery: string, timeSince: string)

  /** The instant before which an item without company activity counts as stale: `now - staleTime`. */
  function StaleDate(options: TriageOptions, now: int): (d: int)
    ensures d + options.staleTime == now
  {
    now - options.staleTime
  }

  /** What getGithubData asks GitHub for, at time now. */
  function Requests(options: TriageOptions, now: int, toIso: int -> string): TriageRequest {
    var staleDate := StaleDate(options, now);
    TriageRequest(
      MakeNewSearch(options.users, options.repos),
      MakeDefStaleSearch(options.users, options.repos, staleDate, toIso),
      MakeMaybeStaleSearch(options.users, options.repos, staleDate, toIso),
      toIso(staleDate))
  }

  /** One cut-off instant, `now - staleTime`, feeds both stale searches and the timeline window. */
  lemma RequestsShareOneCutoff(options: TriageOptions, now: int, toIso: int -> string)
    ensures var r := Requests(options, now, toIso); var iso := toIso(now - options.staleTime);
      && r.timeSince == iso
      && r.defStaleQuery == StalePrefix(options.users, options.repos) + " updated:<=" + iso
      && r.maybeStaleQuery == StalePrefix(options.users, options.repos) + " updated:>" + iso + " created:<=" + iso
  {
  }

  // ---------------------------------------------------------------------------
  // Classification of the results.

  /** An entry of an item's timeline window; anything but a comment arrives as an empty object. */
  datatype TimelineEntry = Comment(author: Option<string>, updatedAt: int) | OtherEvent

  datatype Label = Label(name: string, color: string)

  /** An issue or pull request as the searches return it; only maybe-stale items carry a timeline window. */
  datatype Item = Item(typename: string, id: string, labels: seq<Label>, timeline: Option<seq<TimelineEntry>>)

  /** One search result: `issueCount` and the fetched `nodes`. */
  datatype SearchResult = SearchResult(issueCount: int, nodes: seq<Item>)

  /** What getGithubData resolves to. */
  datatype TriageData = TriageData(newSearchCount: int, newSearchItems: seq<Item>, staleSearchCount: int, staleSearchItems: seq<Item>)

  /** A timeline entry that is a comment by a company user: `c?.author && nrSet.has(c.author.login)`. */
  predicate ByCompany(e: TimelineEntry, users: seq<string>) {
    e.Comment? && e.author.Some? && e.author.value in users
  }

  /** The timeline test of one entry: a company comment must be no newer than the cut-off; any other entry passes. */
  predicate EntryStale(e: TimelineEntry, users: seq<string>, staleDate: int) {
    if ByCompany(e, users) then e.updatedAt <= staleDate else true
  }

  /** `timeline.every(...)`. */
  predicate AllEntriesStale(timeline: seq<TimelineEntry>, users: seq<string>, staleDate: int) {
    forall k :: 0 <= k < |timeline| ==> EntryStale(timeline[k], users, staleDate)
  }

  /**
   * `maybeStale.nodes.filter(n => n.timelineItems.nodes.every(...))`. A node
   * without a timeline makes the filter throw, modelled as Err.
   */
  function KeepStale(nodes: seq<Item>, users: seq<string>, staleDate: int): (r: Result<seq<Item>, string>)
    ensures r.Ok? <==> forall i :: 0 <= i < |nodes| ==> nodes[i].timeline.Some?
    ensures r.Ok? ==> |r.value| <= |nodes|
    ensures r.Ok? ==> forall i :: 0 <= i < |r.value| ==>
      r.value[i] in nodes && AllEntriesStale(r.value[i].timeline.value, users, staleDate)
    ensures r.Ok? ==> forall i :: 0 <= i < |nodes| && AllEntriesStale(nodes[i].timeline.value, users, staleDate) ==>
      nodes[i] in r.value
  {
    if nodes == [] then Ok([])
    else if nodes[0].timeline.None? then Err("timelineItems of a node is undefined")
    else
      match KeepStale(nodes[1..], users, staleDate)
      case Err(e) => Err(e)
      case Ok(rest) =>
        assert forall i :: 1 <= i < |nodes| ==> nodes[i] == nodes[1..][i - 1];
        if AllEntriesStale(nodes[0].timeline.value, users, staleDate) then Ok([nodes[0]] + rest) else Ok(rest)
  }

  /** Filtering a non-empty list: the first item's own test, then the rest. */
  lemma KeepStaleFirst(nodes: seq<Item>, users: seq<string>, staleDate: int)
    requires nodes != [] && nodes[0].timeline.Some? && KeepStale(nodes[1..], users, staleDate).Ok?
    ensures KeepStale(nodes, users, staleDate) ==
      Ok((if AllEntriesStale(nodes[0].timeline.value, users, staleDate) then [nodes[0]] else []) +
        KeepStale(nodes[1..], users, staleDate).value)
  {
    assert [] + KeepStale(nodes[1..], users, staleDate).value == KeepStale(nodes[1..], users, staleDate).value;
  }

  /** Kept items keep their order: filtering a concatenation filters each part. */
  lemma {:induction false} KeepStaleConcat(a: seq<Item>, b: seq<Item>, users: seq<string>, staleDate: int)
    requires KeepStale(a, users, staleDate).Ok? && KeepStale(b, users, staleDate).Ok?
    ensures KeepStale(a + b, users, staleDate) == Ok(KeepStale(a, users, staleDate).value + KeepStale(b, users, staleDate).value)
  {
    if a == [] {
      assert a + b == b;
      assert [] + KeepStale(b, users, staleDate).value == KeepStale(b, users, staleDate).value;
    } else {
      var ab := a + b;
      assert ab[0] == a[0] && ab[1..] == a[1..] + b;
      var h := if AllEntriesStale(a[0].timeline.value, users, staleDate) then [a[0]] else [];
      var kt, kb := KeepStale(a[1..], users, staleDate).value, KeepStale(b, users, staleDate).value;
      KeepStaleFirst(a, users, staleDate);
      KeepStaleConcat(a[1..], b, users, staleDate);
      KeepStaleFirst(ab, users, staleDate);
      ConcatAssoc(h, kt, kb);
    }
  }

  lemma ConcatAssoc(x: seq<Item>, y: seq<Item>, z: seq<Item>)
    ensures x + (y + z) == (x + y) + z
  {
  }

  /** An item whose timeline window is empty is always kept. */
  lemma EmptyTimelineKept(item: Item, users: seq<string>, staleDate: int)
    requires item.timeline == Some([])
    ensures KeepStale([item], users, staleDate) == Ok([item])
  {
    KeepSingle(item, users, staleDate);
  }

  lemma KeepSingle(item: Item, users: seq<string>, staleDate: int)
    requires item.timeline.Some?
    ensures KeepStale([item], users, staleDate) ==
      Ok(if AllEntriesStale(item.timeline.value, users, staleDate) then [item] else [])
  {
    assert [item][1..] == [];
    assert KeepStale([item][1..], users, staleDate) == Ok([]);
    assert [item] + [] == [item];
  }

  /** Comments without an author, by other users, and non-comment entries never exclude an item. */
  lemma OnlyRecentCompanyCommentsExclude(item: Item, users: seq<string>, staleDate: int)
    requires item.timeline.Some?
    requires forall k :: 0 <= k < |item.timeline.value| ==>
      var e := item.timeline.value[k]; e.Comment? && (e.author.Some? && e.author.value in users) ==> e.updatedAt <= staleDate
    ensures KeepStale([item], users, staleDate) == Ok([item])
  {
    KeepSingle(item, users, staleDate);
  }

  /** An item with a company comment newer than the cut-off is dropped. */
  lemma RecentCompanyCommentDrops(item: Item, users: seq<string>, staleDate: int, k: nat)
    requires item.timeline.Some? && k < |item.timeline.value|
    requires ByCompany(item.timeline.value[k], users) && item.timeline.value[k].updatedAt > staleDate
    ensures KeepStale([item], users, staleDate) == Ok([])
  {
    KeepSingle(item, users, staleDate);
  }

  /**
   * The classification getGithubData returns. `newSearchCount` is the reported
   * count or the number of fetched nodes, whichever is larger; the stale list
   * is the definitely-stale nodes followed by the kept maybe-stale nodes.
   */
  function Classify(newRes: SearchResult, defStale: SearchResult, maybeStale: SearchResult, users: seq<string>, staleDate: int): (r: Result<TriageData, string>)
    ensures r.Ok? <==> KeepStale(maybeStale.nodes, users, staleDate).Ok?
    ensures r.Ok? ==> var kept := KeepStale(maybeStale.nodes, users, staleDate).value;
      && r.value.newSearchItems == newRes.nodes
      && r.value.newSearchCount >= |r.value.newSearchItems|
      && r.value.newSearchCount >= newRes.issueCount
      && (r.value.newSearchCount == newRes.issueCount || r.value.newSearchCount == |newRes.nodes|)
      && r.value.staleSearchItems == defStale.nodes + kept
      && r.value.staleSearchCount >= |r.value.staleSearchItems|
      && r.value.staleSearchCount - |kept| >= defStale.issueCount
      && (r.value.staleSearchCount - |kept| == defStale.issueCount || r.value.staleSearchCount - |kept| == |defStale.nodes|)
  {
    match KeepStale(maybeStale.nodes, users, staleDate)
    case Err(e) => Err(e)
    case Ok(kept) =>
      Ok(TriageData(
        Max(newRes.issueCount, |newRes.nodes|),
        newRes.nodes,
        Max(defStale.issueCount, |defStale.nodes|) + |kept|,
        defStale.nodes + kept))
  }

  /** `Math.max(a, b)`. */
  function Max(a: int, b: int): (m: int)
    ensures m >= a && m >= b && (m == a || m == b)
  {
    if a >= b then a else b
  }

  /**
   * getGithubData, at cut-off `now - staleTime`: it fails exactly when a
   * maybe-stale node has no timeline window; otherwise the new items are the
   * new search's nodes, and the stale items are the definitely-stale nodes
   * followed by exactly those maybe-stale nodes whose company comments are all
   * no newer than the cut-off. Each count is the reported count or the number
   * fetched, whichever is larger, the stale one plus the maybe-stale nodes kept.
   */
  function GetGithubData(options: TriageOptions, now: int, newRes: SearchResult, defStale: SearchResult, maybeStale: SearchResult): (r: Result<TriageData, string>)
    ensures r.Ok? <==> forall i :: 0 <= i < |maybeStale.nodes| ==> maybeStale.nodes[i].timeline.Some?
    ensures r.Ok? ==>
      && r.value.newSearchItems == newRes.nodes
      && r.value.newSearchCount >= newRes.issueCount && r.value.newSearchCount >= |newRes.nodes|
      && (r.value.newSearchCount == newRes.issueCount || r.value.newSearchCount == |newRes.nodes|)
    ensures r.Ok? ==> var items := r.value.staleSearchItems; var n := |defStale.nodes|;
      && n <= |items| && items[..n] == defStale.nodes
      && (forall i :: n <= i < |items| ==>
            items[i] in maybeStale.nodes && AllEntriesStale(items[i].timeline.value, options.users, now - options.staleTime))
      && (forall i :: 0 <= i < |maybeStale.nodes| && AllEntriesStale(maybeStale.nodes[i].timeline.value, options.users, now - options.staleTime) ==>
            maybeStale.nodes[i] in items[n..])
    ensures r.Ok? ==> var added := r.value.staleSearchCount - (|r.value.staleSearchItems| - |defStale.nodes|);
      && added >= defStale.issueCount && added >= |defStale.nodes|
      && (added == defStale.issueCount || added == |defStale.nodes|)
  {
    var staleDate := StaleDate(options, now);
    var r := Classify(newRes, defStale, maybeStale, options.users, staleDate);
    if r.Ok? then
      StaleItemsSplit(defStale.nodes, KeepStale(maybeStale.nodes, options.users, staleDate).value, r.value.staleSearchItems);
      r
    else r
  }

  /** A list made of a prefix then a rest splits back into the two at the prefix's length. */
  lemma StaleItemsSplit(prefix: seq<Item>, rest: seq<Item>, items: seq<Item>)
    requires items == prefix + rest
    ensures |prefix| <= |items| && items[..|prefix|] == prefix && items[|prefix|..] == rest
    ensures forall i :: |prefix| <= i < |items| ==> items[i] == rest[i - |prefix|]
  {
  }

  /**
   * A worked case: one company user `nr`, a cut-off at 100, and three
   * maybe-stale items whose timelines hold an old company comment, a recent
   * outside comment and a recent company comment. The first two are stale.
   */
  lemma ClassifyExample(users: seq<string>, a: Item, b: Item, c: Item, d: Item)
    requires users == ["nr"]
    requires a.timeline == Some([Comment(Some("nr"), 50), OtherEvent])
    requires b.timeline == Some([Comment(Some("outsider"), 500), Comment(None, 700)])
    requires c.timeline == Some([Comment(Some("nr"), 150)])
    ensures var r := Classify(SearchResult(0, []), SearchResult(3, [d]), SearchResult(3, [a, b, c]), users, 100);
      r.Ok? && r.value.staleSearchItems == [d, a, b] && r.value.staleSearchCount == 5 && r.value.newSearchCount == 0
  {
    OnlyRecentCompanyCommentsExclude(a, users, 100);
    OnlyRecentCompanyCommentsExclude(b, users, 100);
    RecentCompanyCommentDrops(c, users, 100, 0);
    KeepStaleConcat([a], [b], users, 100);
    KeepStaleConcat([a] + [b], [c], users, 100);
    assert [a] + [b] + [c] == [a, b, c];
  }
}
