/**
 * The label-aware search builders of graphql/GithubQueries.js. They build the
 * same three searches as githubData.js, with a group of `-label:l` qualifiers
 * for the labels to ignore placed between the user group and `is:open`.
 *
 * A label name is inserted after `-label:` without quotes, so a name holding a
 * space (`help wanted` and `good first issue` are among the labels the settings
 * offer) is read by GitHub as `-label:help` followed by the free-text word
 * `wanted`. The builders below are that code as written; the `Quoted`
 * builders put each name between double quotes, so that every label is
 * excluded as a whole.
 */
module GithubQueries {
  import opened Seqs
  import opened SearchTerms
  import GithubData

  // ---------------------------------------------------------------------------
  // The builders, over a given label group.

  /** `ignoreLabels.map(l => `-label:${l}`)`. */
  function LabelClauses(labels: seq<string>): (r: seq<string>)
    ensures |r| == |labels|
    ensures forall i :: 0 <= i < |r| ==> r[i] == "-label:" + labels[i]
  {
    if labels == [] then [] else ["-label:" + labels[0]] + LabelClauses(labels[1..])
  }

  /** The new-items search with the given label qualifiers. */
  function NewSearchWith(users: seq<string>, repos: seq<string>, labelClauses: seq<string>): string {
    Join(GithubData.RepoClauses(repos), " ") + " " + Join(GithubData.NewUserClauses(users), " ") + " "
      + Join(labelClauses, " ") + " is:open"
  }

  /** The part both stale searches share, with the given label qualifiers. */
  function StalePrefixWith(users: seq<string>, repos: seq<string>, labelClauses: seq<string>): string {
    Join(GithubData.RepoClauses(repos), " ") + " " + Join(GithubData.StaleUserClauses(users), " ") + " "
      + Join(labelClauses, " ") + " is:open"
  }

  /** `makeNewSearch(users, repos, ignoreLabels)`, as written. */
  function MakeNewSearch(users: seq<string>, repos: seq<string>, ignoreLabels: seq<string>): string {
    NewSearchWith(users, repos, LabelClauses(ignoreLabels))
  }

  /** `makeDefStaleSearch(users, repos, ignoreLabels, date)`, as written. */
  function MakeDefStaleSearch(users: seq<string>, repos: seq<string>, ignoreLabels: seq<string>, date: int, toIso: int -> string): string {
    StalePrefixWith(users, repos, LabelClauses(ignoreLabels)) + " updated:<=" + toIso(date)
  }

  /** `makeMaybeStaleSearch(users, repos, ignoreLabels, date)`, as written. */
  function MakeMaybeStaleSearch(users: seq<string>, repos: seq<string>, ignoreLabels: seq<string>, date: int, toIso: int -> string): string {
    StalePrefixWith(users, repos, LabelClauses(ignoreLabels)) + " updated:>" + toIso(date) + " created:<=" + toIso(date)
  }

  // ---------------------------------------------------------------------------
  // How GitHub reads them.

  /** Repository clauses, a user group and a label group, then more text. */
  lemma GroupsLabelsThenRest(repos: seq<string>, users: seq<string>, clauses: seq<string>, commenter: string,
                             labelClauses: seq<string>, rest: string)
    requires GithubData.AllPlain(users) && GithubData.AllPlain(repos) && commenter != [] && IsPlain(commenter)
    requires |clauses| == |users|
    requires forall i :: 0 <= i < |users| ==> clauses[i] == "-author:" + users[i] + " " + commenter + users[i]
    requires forall i :: 0 <= i < |labelClauses| ==> IsTerm(labelClauses[i])
    ensures Terms(Join(GithubData.RepoClauses(repos), " ") + " " + Join(clauses, " ") + " " + Join(labelClauses, " ") + " " + rest) ==
      GithubData.RepoClauses(repos) + GithubData.UserTerms(users, commenter) + labelClauses + Terms(rest)
  {
    var rg, ug, lg := Join(GithubData.RepoClauses(repos), " "), Join(clauses, " "), Join(labelClauses, " ");
    var rc, ut, tr := GithubData.RepoClauses(repos), GithubData.UserTerms(users, commenter), Terms(rest);
    var x := lg + " " + rest;
    Regroup(rg, ug, lg, rest);
    assert Terms(rg + " " + ug + " " + x) == rc + ut + Terms(x) by {
      GithubData.GroupsThenRest(repos, users, clauses, commenter, x);
    }
    assert Terms(x) == labelClauses + tr by {
      JoinedTermsThenRest(labelClauses, rest);
    }
    AppendAssoc(rc, ut, labelClauses, tr);
  }

  /** The new-items search split at its spaces between groups. */
  lemma NewSearchWithShape(users: seq<string>, repos: seq<string>, labelClauses: seq<string>)
    ensures NewSearchWith(users, repos, labelClauses) ==
      Join(GithubData.RepoClauses(repos), " ") + " " + Join(GithubData.NewUserClauses(users), " ") + " "
      + Join(labelClauses, " ") + " " + "is:open"
  {
  }

  /** The stale prefix split at its spaces between groups. */
  lemma StalePrefixWithShape(users: seq<string>, repos: seq<string>, labelClauses: seq<string>, rest: string)
    ensures StalePrefixWith(users, repos, labelClauses) + " " + rest ==
      Join(GithubData.RepoClauses(repos), " ") + " " + Join(GithubData.StaleUserClauses(users), " ") + " "
      + Join(labelClauses, " ") + " " + ("is:open" + " " + rest)
  {
  }

  /** New-items search: the groups, then a final single term. */
  lemma NewSearchWithThenTail(users: seq<string>, repos: seq<string>, labelClauses: seq<string>, tail: string)
    requires GithubData.AllPlain(users) && GithubData.AllPlain(repos) && IsTerm(tail)
    requires forall i :: 0 <= i < |labelClauses| ==> IsTerm(labelClauses[i])
    ensures Terms(Join(GithubData.RepoClauses(repos), " ") + " " + Join(GithubData.NewUserClauses(users), " ") + " "
      + Join(labelClauses, " ") + " " + tail) ==
      GithubData.RepoClauses(repos) + GithubData.UserTerms(users, "-commenter:") + labelClauses + [tail]
  {
    GroupsLabelsThenRest(repos, users, GithubData.NewUserClauses(users), "-commenter:", labelClauses, tail);
    TermAlone(tail);
  }

  /**
   * The new-items search is read as the `repo:` qualifiers, then `-author:u`
   * and `-commenter:u` per user, then the label qualifiers, then `is:open`,
   * each group in input order.
   */
  lemma NewSearchWithTerms(users: seq<string>, repos: seq<string>, labelClauses: seq<string>)
    requires GithubData.AllPlain(users) && GithubData.AllPlain(repos)
    requires forall i :: 0 <= i < |labelClauses| ==> IsTerm(labelClauses[i])
    ensures Terms(NewSearchWith(users, repos, labelClauses)) ==
      GithubData.RepoClauses(repos) + GithubData.UserTerms(users, "-commenter:") + labelClauses + ["is:open"]
  {
    NewSearchWithShape(users, repos, labelClauses);
    GithubData.IsOpenIsTerm();
    NewSearchWithThenTail(users, repos, labelClauses, "is:open");
  }

  /** The stale searches are read as the repositories, `-author:u commenter:u` per user, the labels, `is:open`, then the rest. */
  lemma StalePrefixWithTerms(users: seq<string>, repos: seq<string>, labelClauses: seq<string>, rest: string)
    requires GithubData.AllPlain(users) && GithubData.AllPlain(repos)
    requires forall i :: 0 <= i < |labelClauses| ==> IsTerm(labelClauses[i])
    ensures Terms(StalePrefixWith(users, repos, labelClauses) + " " + rest) ==
      GithubData.RepoClauses(repos) + GithubData.UserTerms(users, "commenter:") + labelClauses + ["is:open"] + Terms(rest)
  {
    StalePrefixWithShape(users, repos, labelClauses, rest);
    var open := "is:open";
    GroupsLabelsThenRest(repos, users, GithubData.StaleUserClauses(users), "commenter:", labelClauses, open + " " + rest);
    GithubData.IsOpenIsTerm();
    TermThenRest(open, rest);
  }

  /** A stale prefix followed by one plain-suffixed qualifier. */
  lemma StalePrefixWithThenOne(users: seq<string>, repos: seq<string>, labelClauses: seq<string>, q: string, x: string)
    requires GithubData.AllPlain(users) && GithubData.AllPlain(repos) && q != [] && IsPlain(q) && IsPlain(x)
    requires forall i :: 0 <= i < |labelClauses| ==> IsTerm(labelClauses[i])
    ensures Terms(StalePrefixWith(users, repos, labelClauses) + " " + (q + x)) ==
      GithubData.RepoClauses(repos) + GithubData.UserTerms(users, "commenter:") + labelClauses + ["is:open", q + x]
  {
    StalePrefixWithTerms(users, repos, labelClauses, q + x);
    GithubData.PlainPrefixed(q, x);
    TermAlone(q + x);
  }

  /** A stale prefix followed by two plain-suffixed qualifiers. */
  lemma StalePrefixWithThenTwo(users: seq<string>, repos: seq<string>, labelClauses: seq<string>, q1: string, q2: string, x: string)
    requires GithubData.AllPlain(users) && GithubData.AllPlain(repos)
    requires q1 != [] && IsPlain(q1) && q2 != [] && IsPlain(q2) && IsPlain(x)
    requires forall i :: 0 <= i < |labelClauses| ==> IsTerm(labelClauses[i])
    ensures Terms(StalePrefixWith(users, repos, labelClauses) + " " + ((q1 + x) + " " + (q2 + x))) ==
      GithubData.RepoClauses(repos) + GithubData.UserTerms(users, "commenter:") + labelClauses + ["is:open", q1 + x, q2 + x]
  {
    StalePrefixWithTerms(users, repos, labelClauses, (q1 + x) + " " + (q2 + x));
    GithubData.PlainPrefixed(q1, x);
    GithubData.PlainPrefixed(q2, x);
    TermThenRest(q1 + x, q2 + x);
    TermAlone(q2 + x);
  }

  /** Label clauses of plain names are single terms. */
  lemma PlainLabelClausesAreTerms(labels: seq<string>)
    requires GithubData.AllPlain(labels)
    ensures forall i :: 0 <= i < |labels| ==> IsTerm(LabelClauses(labels)[i])
  {
    forall i | 0 <= i < |labels| ensures IsTerm(LabelClauses(labels)[i]) {
      GithubData.PlainPrefixed("-label:", labels[i]);
    }
  }

  /**
   * For label names without spaces or quotes, the new-items search is read as
   * the repositories, the users, one `-label:l` per label in input order, then
   * `is:open`.
   */
  lemma NewSearchTerms(users: seq<string>, repos: seq<string>, labels: seq<string>)
    requires GithubData.AllPlain(users) && GithubData.AllPlain(repos) && GithubData.AllPlain(labels)
    ensures Terms(MakeNewSearch(users, repos, labels)) ==
      GithubData.RepoClauses(repos) + GithubData.UserTerms(users, "-commenter:") + LabelClauses(labels) + ["is:open"]
  {
    PlainLabelClausesAreTerms(labels);
    NewSearchWithTerms(users, repos, LabelClauses(labels));
  }

  /** The definitely-stale search ends with the labels, then `is:open updated:<=ISO(date)`. */
  lemma DefStaleSearchTerms(users: seq<string>, repos: seq<string>, labels: seq<string>, date: int, toIso: int -> string)
    requires GithubData.AllPlain(users) && GithubData.AllPlain(repos) && GithubData.AllPlain(labels) && IsPlain(toIso(date))
    ensures Terms(MakeDefStaleSearch(users, repos, labels, date, toIso)) ==
      GithubData.RepoClauses(repos) + GithubData.UserTerms(users, "commenter:") + LabelClauses(labels)
      + ["is:open", "updated:<=" + toIso(date)]
  {
    var iso := toIso(date);
    GithubData.DefStaleTail(StalePrefixWith(users, repos, LabelClauses(labels)), iso);
    PlainLabelClausesAreTerms(labels);
    StalePrefixWithThenOne(users, repos, LabelClauses(labels), "updated:<=", iso);
  }

  /** The maybe-stale search ends with the labels, then `is:open updated:>ISO(date) created:<=ISO(date)`. */
  lemma MaybeStaleSearchTerms(users: seq<string>, repos: seq<string>, labels: seq<string>, date: int, toIso: int -> string)
    requires GithubData.AllPlain(users) && GithubData.AllPlain(repos) && GithubData.AllPlain(labels) && IsPlain(toIso(date))
    ensures Terms(MakeMaybeStaleSearch(users, repos, labels, date, toIso)) ==
      GithubData.RepoClauses(repos) + GithubData.UserTerms(users, "commenter:") + LabelClauses(labels)
      + ["is:open", "updated:>" + toIso(date), "created:<=" + toIso(date)]
  {
    var iso := toIso(date);
    GithubData.MaybeStaleTail(StalePrefixWith(users, repos, LabelClauses(labels)), iso);
    PlainLabelClausesAreTerms(labels);
    StalePrefixWithThenTwo(users, repos, LabelClauses(labels), "updated:>", "created:<=", iso);
  }

  /** Both stale searches start with the same text, up to and including `is:open`. */
  lemma StaleSearchesSharePrefix(users: seq<string>, repos: seq<string>, labels: seq<string>, date: int, toIso: int -> string)
    ensures var p := StalePrefixWith(users, repos, LabelClauses(labels));
      var d := MakeDefStaleSearch(users, repos, labels, date, toIso);
      var m := MakeMaybeStaleSearch(users, repos, labels, date, toIso);
      |p| <= |d| && |p| <= |m| && d[..|p|] == p && m[..|p|] == p
  {
  }

  /**
   * With no labels to ignore the label group is empty and leaves one extra
   * space before ` is:open`: the text of githubData.js's search with a space
   * inserted, which GitHub reads as the same terms.
   */
  lemma NoLabelsAddOneSpace(users: seq<string>, repos: seq<string>)
    ensures var g := GithubData.MakeNewSearch(users, repos);
      |g| >= 8 && MakeNewSearch(users, repos, []) == g[..|g| - 8] + " " + g[|g| - 8..]
  {
    var g := GithubData.MakeNewSearch(users, repos);
    var p := Join(GithubData.RepoClauses(repos), " ") + " " + Join(GithubData.NewUserClauses(users), " ");
    assert g == p + " is:open";
    assert g[..|g| - 8] == p && g[|g| - 8..] == " is:open";
  }

  /** ... and the two are read alike. */
  lemma NoLabelsSameTerms(users: seq<string>, repos: seq<string>)
    requires GithubData.AllPlain(users) && GithubData.AllPlain(repos)
    ensures Terms(MakeNewSearch(users, repos, [])) == Terms(GithubData.MakeNewSearch(users, repos))
  {
    NewSearchTerms(users, repos, []);
    GithubData.NewSearchTerms(users, repos);
  }

  // ---------------------------------------------------------------------------
  // Label names with spaces.

  /** A group of one label is that label's qualifier. */
  lemma SingleLabelGroup(l: string)
    ensures Join(LabelClauses([l]), " ") == "-label:" + l
  {
    assert LabelClauses([l]) == ["-label:" + l];
  }

  /** The qualifier of a label `a b`, then more text, is read as `-label:a`, the word `b`, then the rest. */
  lemma SpacedLabelText(a: string, b: string, rest: string)
    requires IsPlain(a) && b != [] && IsPlain(b)
    ensures Terms(("-label:" + (a + " " + b)) + " " + rest) == ["-label:" + a, b] + Terms(rest)
  {
    var l := "-label:" + a;
    assert ("-label:" + (a + " " + b)) + " " + rest == l + " " + (b + " " + rest);
    GithubData.PlainPrefixed("-label:", a);
    PlainIsTerm(b);
    TermThenRest(l, b + " " + rest);
    TermThenRest(b, rest);
  }

  /** The label group of a single label `a b`, then one more term. */
  lemma SpacedLabelTail(a: string, b: string, tail: string)
    requires IsPlain(a) && b != [] && IsPlain(b) && IsTerm(tail)
    ensures Terms(Join(LabelClauses([a + " " + b]), " ") + " " + tail) == ["-label:" + a, b] + [tail]
  {
    SingleLabelGroup(a + " " + b);
    SpacedLabelText(a, b, tail);
    TermAlone(tail);
  }

  /** A label `a b` is read as the qualifier `-label:a`, then the free-text word `b`. */
  lemma SpacedLabelSplitsThenTail(repos: seq<string>, users: seq<string>, clauses: seq<string>, commenter: string,
                                  a: string, b: string, tail: string)
    requires GithubData.AllPlain(users) && GithubData.AllPlain(repos) && commenter != [] && IsPlain(commenter)
    requires |clauses| == |users|
    requires forall i :: 0 <= i < |users| ==> clauses[i] == "-author:" + users[i] + " " + commenter + users[i]
    requires IsPlain(a) && b != [] && IsPlain(b) && IsTerm(tail)
    ensures Terms(Join(GithubData.RepoClauses(repos), " ") + " " + Join(clauses, " ") + " "
      + Join(LabelClauses([a + " " + b]), " ") + " " + tail) ==
      GithubData.RepoClauses(repos) + GithubData.UserTerms(users, commenter) + ["-label:" + a, b, tail]
  {
    var lg := Join(LabelClauses([a + " " + b]), " ");
    var rg, ug := Join(GithubData.RepoClauses(repos), " "), Join(clauses, " ");
    var rc, ut := GithubData.RepoClauses(repos), GithubData.UserTerms(users, commenter);
    Regroup(rg, ug, lg, tail);
    assert Terms(rg + " " + ug + " " + (lg + " " + tail)) == rc + ut + Terms(lg + " " + tail) by {
      GithubData.GroupsThenRest(repos, users, clauses, commenter, lg + " " + tail);
    }
    SpacedLabelTail(a, b, tail);
    AppendAssoc(rc, ut, ["-label:" + a, b], [tail]);
  }

  /** `makeNewSearch(users, repos, ["a b"])` excludes the label `a` and asks for the word `b`. */
  lemma SpacedLabelSplits(users: seq<string>, repos: seq<string>, a: string, b: string)
    requires GithubData.AllPlain(users) && GithubData.AllPlain(repos)
    requires IsPlain(a) && b != [] && IsPlain(b)
    ensures Terms(MakeNewSearch(users, repos, [a + " " + b])) ==
      GithubData.RepoClauses(repos) + GithubData.UserTerms(users, "-commenter:") + ["-label:" + a, b, "is:open"]
  {
    NewSearchWithShape(users, repos, LabelClauses([a + " " + b]));
    GithubData.IsOpenIsTerm();
    SpacedLabelSplitsThenTail(repos, users, GithubData.NewUserClauses(users), "-commenter:", a, b, "is:open");
  }

  /** Ignoring `help wanted` sends the qualifier `-label:help` and the search word `wanted`. */
  lemma HelpWantedIsSplit(users: seq<string>, repos: seq<string>)
    requires GithubData.AllPlain(users) && GithubData.AllPlain(repos)
    ensures Terms(MakeNewSearch(users, repos, ["help wanted"])) ==
      GithubData.RepoClauses(repos) + GithubData.UserTerms(users, "-commenter:") + ["-label:help", "wanted", "is:open"]
  {
    var a, b := "help", "wanted";
    assert IsPlain(a) && IsPlain(b);
    assert a + " " + b == "help wanted";
    SpacedLabelSplits(users, repos, a, b);
    assert "-label:" + a == "-label:help";
  }

  /** Text without double quotes; it may hold spaces. */
  predicate NoQuote(x: string) {
    forall k :: 0 <= k < |x| ==> x[k] != '"'
  }

  /** `-label:"l"`: the qualifier with the label quoted. */
  function QuotedLabelClauses(labels: seq<string>): (r: seq<string>)
    ensures |r| == |labels|
    ensures forall i :: 0 <= i < |r| ==> r[i] == "-label:\"" + labels[i] + "\""
  {
    if labels == [] then [] else ["-label:\"" + labels[0] + "\""] + QuotedLabelClauses(labels[1..])
  }

  /** A plain prefix followed by a quoted text without quotes of its own is one term, whatever spaces it holds. */
  lemma PrefixedQuotedIsTerm(p: string, l: string)
    requires p != [] && IsPlain(p) && NoQuote(l)
    ensures IsTerm(p + "\"" + l + "\"")
  {
    var x := p + "\"" + l + "\"";
    var s := x + " ";
    var m, n := |p|, |l|;
    assert |x| == m + n + 2;
    forall k | 0 <= k < m ensures s[k] == p[k] { }
    assert s[m] == '"';
    forall k | m + 1 <= k < m + 1 + n ensures s[k] == l[k - m - 1] { }
    assert s[m + 1 + n] == '"' && s[m + n + 2] == ' ';
    TermEndSkipsPlain(s, 0, m, false);
    TermEndSkipsPlain(s, m + 1, m + 1 + n, true);
  }

  /** A quoted label without quotes of its own is one term. */
  lemma QuotedLabelIsTerm(l: string)
    requires NoQuote(l)
    ensures IsTerm("-label:\"" + l + "\"")
  {
    PrefixedQuotedIsTerm("-label:", l);
    assert "-label:" + "\"" + l + "\"" == "-label:\"" + l + "\"";
  }

  lemma QuotedLabelClausesAreTerms(labels: seq<string>)
    requires forall i :: 0 <= i < |labels| ==> NoQuote(labels[i])
    ensures forall i :: 0 <= i < |labels| ==> IsTerm(QuotedLabelClauses(labels)[i])
  {
    forall i | 0 <= i < |labels| ensures IsTerm(QuotedLabelClauses(labels)[i]) {
      QuotedLabelIsTerm(labels[i]);
    }
  }

  /** The new-items search with quoted label names. */
  function MakeNewSearchQuoted(users: seq<string>, repos: seq<string>, ignoreLabels: seq<string>): string {
    NewSearchWith(users, repos, QuotedLabelClauses(ignoreLabels))
  }

  /** The definitely-stale search with quoted label names. */
  function MakeDefStaleSearchQuoted(users: seq<string>, repos: seq<string>, ignoreLabels: seq<string>, date: int, toIso: int -> string): string {
    StalePrefixWith(users, repos, QuotedLabelClauses(ignoreLabels)) + " updated:<=" + toIso(date)
  }

  /** The maybe-stale search with quoted label names. */
  function MakeMaybeStaleSearchQuoted(users: seq<string>, repos: seq<string>, ignoreLabels: seq<string>, date: int, toIso: int -> string): string {
    StalePrefixWith(users, repos, QuotedLabelClauses(ignoreLabels)) + " updated:>" + toIso(date) + " created:<=" + toIso(date)
  }

  /** With quoting, every label, spaces and all, is one `-label:` qualifier, in input order. */
  lemma QuotedNewSearchTerms(users: seq<string>, repos: seq<string>, labels: seq<string>)
    requires GithubData.AllPlain(users) && GithubData.AllPlain(repos)
    requires forall i :: 0 <= i < |labels| ==> NoQuote(labels[i])
    ensures Terms(MakeNewSearchQuoted(users, repos, labels)) ==
      GithubData.RepoClauses(repos) + GithubData.UserTerms(users, "-commenter:") + QuotedLabelClauses(labels) + ["is:open"]
  {
    QuotedLabelClausesAreTerms(labels);
    NewSearchWithTerms(users, repos, QuotedLabelClauses(labels));
  }

  lemma QuotedDefStaleSearchTerms(users: seq<string>, repos: seq<string>, labels: seq<string>, date: int, toIso: int -> string)
    requires GithubData.AllPlain(users) && GithubData.AllPlain(repos) && IsPlain(toIso(date))
    requires forall i :: 0 <= i < |labels| ==> NoQuote(labels[i])
    ensures Terms(MakeDefStaleSearchQuoted(users, repos, labels, date, toIso)) ==
      GithubData.RepoClauses(repos) + GithubData.UserTerms(users, "commenter:") + QuotedLabelClauses(labels)
      + ["is:open", "updated:<=" + toIso(date)]
  {
    var iso := toIso(date);
    GithubData.DefStaleTail(StalePrefixWith(users, repos, QuotedLabelClauses(labels)), iso);
    QuotedLabelClausesAreTerms(labels);
    StalePrefixWithThenOne(users, repos, QuotedLabelClauses(labels), "updated:<=", iso);
  }

  lemma QuotedMaybeStaleSearchTerms(users: seq<string>, repos: seq<string>, labels: seq<string>, date: int, toIso: int -> string)
    requires GithubData.AllPlain(users) && GithubData.AllPlain(repos) && IsPlain(toIso(date))
    requires forall i :: 0 <= i < |labels| ==> NoQuote(labels[i])
    ensures Terms(MakeMaybeStaleSearchQuoted(users, repos, labels, date, toIso)) ==
      GithubData.RepoClauses(repos) + GithubData.UserTerms(users, "commenter:") + QuotedLabelClauses(labels)
      + ["is:open", "updated:>" + toIso(date), "created:<=" + toIso(date)]
  {
    var iso := toIso(date);
    GithubData.MaybeStaleTail(StalePrefixWith(users, repos, QuotedLabelClauses(labels)), iso);
    QuotedLabelClausesAreTerms(labels);
    StalePrefixWithThenTwo(users, repos, QuotedLabelClauses(labels), "updated:>", "created:<=", iso);
  }

  /** One quoted label, spaces and all, is one qualifier. */
  lemma QuotedSingleLabel(users: seq<string>, repos: seq<string>, l: string)
    requires GithubData.AllPlain(users) && GithubData.AllPlain(repos) && NoQuote(l)
    ensures Terms(MakeNewSearchQuoted(users, repos, [l])) ==
      GithubData.RepoClauses(repos) + GithubData.UserTerms(users, "-commenter:") + ["-label:\"" + l + "\"", "is:open"]
  {
    QuotedNewSearchTerms(users, repos, [l]);
    assert QuotedLabelClauses([l]) == ["-label:\"" + l + "\""];
  }

  /** Ignoring `help wanted` with quoting sends the one qualifier `-label:"help wanted"`. */
  lemma HelpWantedQuoted(users: seq<string>, repos: seq<string>)
    requires GithubData.AllPlain(users) && GithubData.AllPlain(repos)
    ensures Terms(MakeNewSearchQuoted(users, repos, ["help wanted"])) ==
      GithubData.RepoClauses(repos) + GithubData.UserTerms(users, "-commenter:") + ["-label:\"help wanted\"", "is:open"]
  {
    var l := "help wanted";
    assert NoQuote(l);
    QuotedSingleLabel(users, repos, l);
    assert "-label:\"" + l + "\"" == "-label:\"help wanted\"";
  }
}
