/**
 * The profile editor: a controlled form holding no state of its own. Each
 * of its handlers computes the new value of one profile field from the
 * current profile and what was typed or chosen, and hands only that field
 * to its `onChange` callback.
 */
module ProfileEditor {
  import opened Wrappers
  import opened Seqs
  import opened JsNumber
  import opened InputParsing
  import opened IssueLabel

  /** A profile as the editor shows it. */
  datatype Profile = Profile(
    repos: seq<string>,
    labels: seq<string>,
    users: seq<string>,
    staleTimeValue: JsNum,
    staleTimeUnit: int,
    profileName: string)

  /** The single-field object a handler passes to `onChange`. */
  datatype Change =
    | ProfileName(name: string)
    | Repos(repos: seq<string>)
    | Labels(labels: seq<string>)
    | Users(users: seq<string>)
    | StaleTimeValue(value: JsNum)
    | StaleTimeUnit(unit: int)

  /** `{ ...profile, ...change }`: the changed field takes its new value and every other field is kept. */
  function Apply(p: Profile, c: Change): (q: Profile)
    ensures q.repos == (if c.Repos? then c.repos else p.repos)
    ensures q.labels == (if c.Labels? then c.labels else p.labels)
    ensures q.users == (if c.Users? then c.users else p.users)
    ensures q.staleTimeValue == (if c.StaleTimeValue? then c.value else p.staleTimeValue)
    ensures q.staleTimeUnit == (if c.StaleTimeUnit? then c.unit else p.staleTimeUnit)
    ensures q.profileName == (if c.ProfileName? then c.name else p.profileName)
  {
    match c
    case ProfileName(n) => p.(profileName := n)
    case Repos(r) => p.(repos := r)
    case Labels(l) => p.(labels := l)
    case Users(u) => p.(users := u)
    case StaleTimeValue(v) => p.(staleTimeValue := v)
    case StaleTimeUnit(u) => p.(staleTimeUnit := u)
  }

  // ---------------------------------------------------------------------------
  // Repositories and users.

  /**
   * The repository box's "create": the names parsed from the typed text that
   * are not selected yet, followed by the current selection unchanged.
   */
  function OnCreateRepo(p: Profile, name: string): (c: Change)
    ensures c.Repos?
    ensures |c.repos| >= |p.repos| && c.repos[|c.repos| - |p.repos|..] == p.repos
    ensures forall i :: 0 <= i < |c.repos| - |p.repos| ==>
      c.repos[i] in SplitRepositoryNames(name) && IsRepoName(c.repos[i]) && c.repos[i] !in p.repos
    ensures NoDup(p.repos) ==> NoDup(c.repos)
  {
    var parsed := SplitRepositoryNames(name);
    PrependNewMerges(parsed, p.repos);
    assert NoDup(p.repos) ==> NoDup(PrependNew(parsed, p.repos)) by {
      if NoDup(p.repos) {
        PrependNewNoDup(parsed, p.repos);
      }
    }
    Repos(PrependNew(parsed, p.repos))
  }

  /** The user box's "create": the parsed logins not listed yet, followed by the current list. */
  function OnCreateUser(p: Profile, name: string): (c: Change)
    ensures c.Users?
    ensures |c.users| >= |p.users| && c.users[|c.users| - |p.users|..] == p.users
    ensures forall i :: 0 <= i < |c.users| - |p.users| ==>
      c.users[i] in SplitLogins(name) && c.users[i] != "" && c.users[i] !in p.users
    ensures NoDup(p.users) ==> NoDup(c.users)
  {
    var parsed := SplitLogins(name);
    PrependNewMerges(parsed, p.users);
    assert NoDup(p.users) ==> NoDup(PrependNew(parsed, p.users)) by {
      if NoDup(p.users) {
        PrependNewNoDup(parsed, p.users);
      }
    }
    Users(PrependNew(parsed, p.users))
  }

  /** Creating the same text twice leaves the repositories as the first time. */
  lemma OnCreateRepoIdempotent(p: Profile, name: string)
    ensures var once := Apply(p, OnCreateRepo(p, name));
      Apply(once, OnCreateRepo(once, name)) == once
  {
    PrependNewIdempotent(SplitRepositoryNames(name), p.repos);
  }

  // ---------------------------------------------------------------------------
  // Labels.

  /**
   * The label box's "create": nothing is reported for an empty name; a name
   * already selected leaves the list as it is; any other name is appended.
   */
  function OnCreateLabel(p: Profile, name: string): (c: Option<Change>)
    ensures name == "" <==> c.None?
    ensures c.Some? ==> c.value.Labels?
    ensures c.Some? && name in p.labels ==> c.value.labels == p.labels
    ensures c.Some? && name !in p.labels ==> c.value.labels == p.labels + [name]
  {
    if name == "" then None
    else Some(Labels(if name !in p.labels then p.labels + [name] else p.labels))
  }

  /** Creating a label keeps the list free of duplicates, and creating it again changes nothing. */
  lemma OnCreateLabelKeepsNoDup(p: Profile, name: string)
    requires NoDup(p.labels) && name != ""
    ensures var q := Apply(p, OnCreateLabel(p, name).value);
      && NoDup(q.labels)
      && name in q.labels
      && Apply(q, OnCreateLabel(q, name).value) == q
  {
    var q := Apply(p, OnCreateLabel(p, name).value);
    if name !in p.labels {
      var l := p.labels + [name];
      assert l[|p.labels|] == name;
      forall i, j | 0 <= i < j < |l| ensures l[i] != l[j] {
        if j == |p.labels| {
          assert l[i] == p.labels[i];
        } else {
          assert l[i] == p.labels[i] && l[j] == p.labels[j];
        }
      }
    }
  }

  /** The label box's "change": each chosen entry's name, in order. */
  function OnChangeLabels(values: seq<LabelChoice>): (c: Change)
    ensures c.Labels? && |c.labels| == |values|
    ensures forall i :: 0 <= i < |values| ==> c.labels[i] == ChoiceName(values[i])
  {
    Labels(ChoiceNames(values))
  }

  /** The table entries whose names are not in `selected`, in table order. */
  function Unselected(table: seq<LabelColor>, selected: seq<string>): (r: seq<LabelColor>)
    ensures |r| <= |table|
    ensures forall i :: 0 <= i < |r| ==> r[i] in table && r[i].name !in selected
    ensures forall i :: 0 <= i < |table| && table[i].name !in selected ==> table[i] in r
  {
    if table == [] then []
    else if table[0].name in selected then Unselected(table[1..], selected)
    else [table[0]] + Unselected(table[1..], selected)
  }

  /** The suggestions of the label box: every default label not selected yet. */
  function LabelSuggestions(p: Profile): (r: seq<LabelColor>)
    ensures forall i :: 0 <= i < |r| ==> r[i] in KnownLabelColors && r[i].name !in p.labels
    ensures forall i :: 0 <= i < |KnownLabelColors| && KnownLabelColors[i].name !in p.labels ==>
      KnownLabelColors[i] in r
  {
    Unselected(KnownLabelColors, p.labels)
  }

  /** Choosing a suggestion removes it from the suggestions. */
  lemma ChosenSuggestionLeaves(p: Profile, i: nat)
    requires i < |LabelSuggestions(p)|
    ensures var s := LabelSuggestions(p)[i];
      && OnCreateLabel(p, s.name) != None ==> s !in LabelSuggestions(Apply(p, OnCreateLabel(p, s.name).value))
  {
    var s := LabelSuggestions(p)[i];
    if s.name != "" {
      var q := Apply(p, OnCreateLabel(p, s.name).value);
      assert s.name in q.labels;
    }
  }

  // ---------------------------------------------------------------------------
  // Stale time.

  /** The time box's "change": `parseFloat` of the text. */
  function OnStaleTimeValue(text: string): (c: Change)
    ensures c.StaleTimeValue? && c.value == ParseFloat(text)
  {
    StaleTimeValue(ParseFloat(text))
  }

  /** What the time box shows: nothing for NaN, the number's text otherwise. */
  function StaleTimeText(v: JsNum): (t: string)
    ensures IsNaN(v) ==> t == ""
    ensures v.Finite? && v.value == v.value.Floor as real ==> t == IntegerText(v.value.Floor)
  {
    if IsNaN(v) then "" else ToString(v)
  }

  /**
   * A typed whole number is shown back as its text: as typed below 1e21 in
   * magnitude, in exponent form from there. A typed word is shown as an
   * empty box.
   */
  lemma StaleTimeTextRoundTrip(p: Profile, k: int)
    ensures StaleTimeText(Apply(p, OnStaleTimeValue(IntToString(k))).staleTimeValue) == IntegerText(k)
    ensures StaleTimeText(Apply(p, OnStaleTimeValue(IntToString(k))).staleTimeValue) == IntToString(k)
      <==> -ExponentFrom < k < ExponentFrom
    ensures StaleTimeText(Apply(p, OnStaleTimeValue("weeks")).staleTimeValue) == ""
  {
    IntTextParses(k);
    ToStringOfInteger(k);
    ParseFloatOfNonNumber("weeks");
  }
}
