/**
 * Parsing of the free-text list boxes shared by both settings forms and the
 * profile editor: `splitRepositoryNames`, `splitLogins`, the message of the
 * repository box's "create" entry, and the label values a multiselect hands
 * back.
 */
module InputParsing {
  import opened JsText
  import opened Seqs

  // ---------------------------------------------------------------------------
  // Repository names.

  /** A character of the class `[A-Za-z0-9_.-]`. */
  predicate IsRepoChar(c: char) {
    ('A' <= c <= 'Z') || ('a' <= c <= 'z') || ('0' <= c <= '9') || c == '_' || c == '.' || c == '-'
  }

  /** The index of the first `/` in t, or |t| if there is none. */
  function SlashIndex(t: string): (k: nat)
    ensures k <= |t|
    ensures forall i :: 0 <= i < k ==> t[i] != '/'
    ensures k < |t| ==> t[k] == '/'
  {
    if t == [] then 0 else if t[0] == '/' then 0 else 1 + SlashIndex(t[1..])
  }

  /** The pattern `^[A-Za-z0-9_.-]+\/[A-Za-z0-9_.-]+$`: an owner, one slash, a name. */
  predicate IsRepoName(t: string) {
    var k := SlashIndex(t);
    0 < k < |t| - 1 && forall i :: 0 <= i < |t| && i != k ==> IsRepoChar(t[i])
  }

  /** The pattern read the other way: owner and name are non-empty runs of repository characters. */
  lemma IsRepoNameOfParts(owner: string, name: string)
    requires |owner| >= 1 && |name| >= 1
    requires forall i :: 0 <= i < |owner| ==> IsRepoChar(owner[i])
    requires forall i :: 0 <= i < |name| ==> IsRepoChar(name[i])
    ensures IsRepoName(owner + "/" + name)
  {
    var t := owner + "/" + name;
    assert t[..|owner|] == owner;
    SlashIndexAfter(t, |owner|);
    forall i | 0 <= i < |t| && i != |owner| ensures IsRepoChar(t[i]) {
      if i < |owner| {
        assert t[i] == owner[i];
      } else {
        assert t[i] == name[i - |owner| - 1];
      }
    }
  }

  lemma {:induction false} SlashIndexAfter(t: string, k: nat)
    requires k < |t| && t[k] == '/'
    requires forall i :: 0 <= i < k ==> IsRepoChar(t[i])
    ensures SlashIndex(t) == k
  {
    if k > 0 {
      assert IsRepoChar(t[0]);
      SlashIndexAfter(t[1..], k - 1);
    }
  }

  /** `xs.filter(n => n && pattern.test(n))`. */
  function FilterRepoNames(xs: seq<string>): (r: seq<string>)
    ensures forall i :: 0 <= i < |r| ==> IsRepoName(r[i]) && r[i] in xs
    ensures forall i :: 0 <= i < |xs| && IsRepoName(xs[i]) ==> xs[i] in r
  {
    if xs == [] then []
    else if IsRepoName(xs[0]) then [xs[0]] + FilterRepoNames(xs[1..])
    else FilterRepoNames(xs[1..])
  }

  /**
   * `splitRepositoryNames(s)`: the list tokens of s that match the repository
   * pattern, without repetitions, in the order they first occur.
   */
  function SplitRepositoryNames(s: string): (r: seq<string>)
    ensures NoDup(r)
    ensures forall i :: 0 <= i < |r| ==> IsRepoName(r[i]) && r[i] in Tokens(s)
    ensures forall i :: 0 <= i < |Tokens(s)| && IsRepoName(Tokens(s)[i]) ==> Tokens(s)[i] in r
  {
    Dedup(FilterRepoNames(Tokens(s)))
  }

  /** The captured comma never survives as a repository name. */
  lemma CommaIsNoRepoName()
    ensures !IsRepoName(",")
  {
  }

  /** Repository names appear in the order of their first occurrence among the matching tokens. */
  lemma SplitRepositoryNamesOrder(s: string)
    ensures var r := SplitRepositoryNames(s); var f := FilterRepoNames(Tokens(s));
      forall i, j :: 0 <= i < j < |r| ==> FirstIndex(f, r[i]) < FirstIndex(f, r[j])
  {
    DedupKeepsFirstOccurrenceOrder(FilterRepoNames(Tokens(s)));
  }

  // ---------------------------------------------------------------------------
  // Logins.

  /**
   * `splitLogins(s)`: the list tokens of s without repetitions, in the order
   * they first occur. A comma separator is spliced in by the split and is
   * trimmed to `","`, which is truthy, so it is kept as a token.
   */
  function SplitLogins(s: string): (r: seq<string>)
    ensures NoDup(r)
    ensures forall i :: 0 <= i < |r| ==> r[i] != "" && IsListToken(r[i]) && r[i] in Tokens(s)
    ensures forall i :: 0 <= i < |Tokens(s)| ==> Tokens(s)[i] in r
  {
    TokensAreListTokens(s);
    Dedup(Tokens(s))
  }

  /** Logins appear in the order of their first occurrence in the input. */
  lemma SplitLoginsOrder(s: string)
    ensures var r := SplitLogins(s);
      forall i, j :: 0 <= i < j < |r| ==> FirstIndex(Tokens(s), r[i]) < FirstIndex(Tokens(s), r[j])
  {
    DedupKeepsFirstOccurrenceOrder(Tokens(s));
  }

  /** Two one-character names around a comma split into the names and the comma between them. */
  lemma SplitAroundComma(x: char, y: char)
    requires !StartsSeparator(x) && !StartsSeparator(y)
    ensures SplitSeparators([x, ',', y]) == [Text([x]), Captured([',']), Text([y])]
  {
    var s := [x, ',', y];
    assert SeparatorIndex(s, 0) == 1;
    assert SkipWhitespace(s, 2) == 2;
    assert s[..1] == [x] && s[1..2] == [','] && s[2..] == [y];
    assert SeparatorIndex([y], 0) == 1;
  }

  lemma TokensAroundComma(x: char, y: char)
    requires !StartsSeparator(x) && !StartsSeparator(y)
    ensures Tokens([x, ',', y]) == [[x], [','], [y]]
  {
    var px, pc, py := Text([x]), Captured([',']), Text([y]);
    SplitAroundComma(x, y);
    TokensOfThree([x, ',', y], px, pc, py);
    SurvivorOfChar(px, x);
    SurvivorOfChar(pc, ',');
    SurvivorOfChar(py, y);
    assert [[x]] + [[',']] + [[y]] == [[x], [','], [y]];
  }

  /** `splitLogins("a,b")` is `["a", ",", "b"]`: the comma separator is kept as a login. */
  lemma SplitLoginsKeepsComma()
    ensures SplitLogins("a,b") == ["a", ",", "b"]
  {
    TokensAroundComma('a', 'b');
    DedupOfNoDup(["a", ",", "b"]);
  }

  /** `splitRepositoryNames` drops that comma, and with it names that lack an owner. */
  lemma SplitRepositoryNamesDropsComma()
    ensures SplitRepositoryNames("a,b") == []
  {
    TokensAroundComma('a', 'b');
    var t := ["a", ",", "b"];
    assert !IsRepoName(t[0]) && !IsRepoName(t[1]) && !IsRepoName(t[2]);
    assert t[1..][1..][1..] == [];
  }

  // ---------------------------------------------------------------------------
  // The repository box's "create" entry.

  /** The text of the entry offered for a search term the user typed. */
  function CreateOptionMessage(searchTerm: string): (m: string)
    ensures SplitRepositoryNames(searchTerm) == [] ==> m == "Invalid repository name (make sure to include the organization)"
    ensures |SplitRepositoryNames(searchTerm)| == 1 ==> m == "Add repository " + SplitRepositoryNames(searchTerm)[0]
    ensures |SplitRepositoryNames(searchTerm)| > 1 ==>
      m == "Add repositories " + Join(SplitRepositoryNames(searchTerm), ", ")
  {
    var split := SplitRepositoryNames(searchTerm);
    if |split| == 0 then "Invalid repository name (make sure to include the organization)"
    else if |split| == 1 then "Add repository " + split[0]
    else "Add repositories " + Join(split, ", ")
  }

  // ---------------------------------------------------------------------------
  // Label values.

  /** What a label multiselect holds: typed text, or a `{ name, color }` entry from its list. */
  datatype LabelChoice = Typed(text: string) | Listed(name: string, color: string)

  /** `typeof v !== 'string' ? v.name : v`. */
  function ChoiceName(v: LabelChoice): string {
    match v
    case Typed(t) => t
    case Listed(n, _) => n
  }

  /** `value.map(v => typeof v !== 'string' ? v.name : v)`: one name per choice, in order. */
  function ChoiceNames(values: seq<LabelChoice>): (r: seq<string>)
    ensures |r| == |values|
    ensures forall i :: 0 <= i < |r| ==> r[i] == ChoiceName(values[i])
  {
    if values == [] then [] else [ChoiceName(values[0])] + ChoiceNames(values[1..])
  }
}
