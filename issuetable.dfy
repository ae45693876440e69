/**
 * The issue table: the list of distinct labels found on the items, the
 * options of the label filter, the value each row is filtered by, the sort
 * icons and the type column's logo.
 */
module IssueTable {
  import opened Wrappers
  import opened Seqs

  /** A label node as GitHub returns it. */
  datatype Label = Label(name: string, color: string)

  /** An issue or pull request row: its `__typename` and its label nodes. */
  datatype Item = Item(typename: string, labels: seq<Label>)

  /** `labels.map(({ name }) => name)`. */
  function Names(ls: seq<Label>): seq<string> {
    seq(|ls|, i requires 0 <= i < |ls| => ls[i].name)
  }

  /** `items.flatMap(i => i.labels.nodes)`: every label of every item, item by item. */
  function Flatten(items: seq<Item>): (r: seq<Label>)
    ensures forall i, k :: 0 <= i < |items| && 0 <= k < |items[i].labels| ==> items[i].labels[k] in r
    ensures forall l :: l in r ==> exists i :: 0 <= i < |items| && l in items[i].labels
  {
    if items == [] then [] else items[0].labels + Flatten(items[1..])
  }

  /** The last label named n, if any. */
  function LastWith(ls: seq<Label>, n: string): (r: Option<Label>)
    ensures r.Some? <==> n in Names(ls)
    ensures r.Some? ==> r.value.name == n
  {
    if ls == [] then None
    else
      var init := ls[..|ls| - 1];
      assert Names(ls) == Names(init) + [ls[|ls| - 1].name];
      if ls[|ls| - 1].name == n then Some(ls[|ls| - 1]) else LastWith(init, n)
  }

  /** What LastWith finds is a label of that name with no label of that name after it. */
  lemma {:induction false} LastWithIsLast(ls: seq<Label>, n: string)
    requires LastWith(ls, n).Some?
    ensures exists k :: (0 <= k < |ls| && ls[k] == LastWith(ls, n).value && ls[k].name == n &&
      forall j :: k < j < |ls| ==> ls[j].name != n)
  {
    var init, last := ls[..|ls| - 1], |ls| - 1;
    if ls[last].name != n {
      assert LastWith(ls, n) == LastWith(init, n);
      LastWithIsLast(init, n);
      var k :| 0 <= k < |init| && init[k] == LastWith(init, n).value && init[k].name == n &&
        forall j :: k < j < |init| ==> init[j].name != n;
      assert ls[k] == init[k];
      assert forall j :: k < j < |ls| ==> ls[j].name != n by {
        forall j | k < j < |ls| ensures ls[j].name != n {
          if j < last {
            assert ls[j] == init[j];
          }
        }
      }
    } else {
      assert LastWith(ls, n).value == ls[last];
    }
  }

  /**
   * What a `Map` keyed by name ends up holding after every label is set in
   * order: one entry per distinct name, in order of first appearance, each
   * holding the last label seen with that name.
   */
  function DistinctLabels(ls: seq<Label>): (r: seq<Label>)
    ensures Names(r) == Dedup(Names(ls))
    ensures forall j :: 0 <= j < |r| ==> Some(r[j]) == LastWith(ls, r[j].name)
  {
    var d := Dedup(Names(ls));
    var r := seq(|d|, j requires 0 <= j < |d| => LastWith(ls, d[j]).value);
    assert Names(r) == d;
    r
  }

  /** One more label: the names grow by its name, and so do the distinct names when it is new. */
  lemma SnocNames(ls: seq<Label>, i: nat)
    requires i < |ls|
    ensures Names(ls[..i + 1]) == Names(ls[..i]) + [ls[i].name]
    ensures Dedup(Names(ls[..i + 1])) ==
      if ls[i].name in Dedup(Names(ls[..i])) then Dedup(Names(ls[..i])) else Dedup(Names(ls[..i])) + [ls[i].name]
  {
    var xs := ls[..i + 1];
    assert xs[..i] == ls[..i];
    assert Names(xs) == Names(ls[..i]) + [ls[i].name];
    assert Names(xs)[..i] == Names(ls[..i]);
  }

  /** One more label: it is now the last of its name, and the last of every other name stays. */
  lemma SnocLast(ls: seq<Label>, i: nat)
    requires i < |ls|
    ensures forall n :: LastWith(ls[..i + 1], n) == if ls[i].name == n then Some(ls[i]) else LastWith(ls[..i], n)
  {
    var xs := ls[..i + 1];
    assert xs[i] == ls[i] && xs[..|xs| - 1] == ls[..i];
    forall n ensures LastWith(xs, n) == if ls[i].name == n then Some(ls[i]) else LastWith(ls[..i], n) {
    }
  }

  /** `Array.from(new Map(items.flatMap(i => i.labels.nodes.map(l => [l.name, l]))).values())`. */
  method AllLabels(items: seq<Item>) returns (r: seq<Label>)
    ensures r == DistinctLabels(Flatten(items))
  {
    r := LastByName(Flatten(items));
  }

  /** What the loop of LastByName keeps after `i` labels: the keys in insertion order and the last label of each. */
  ghost predicate MapAfter(ls: seq<Label>, i: nat, keys: seq<string>, m: map<string, Label>)
    requires i <= |ls|
  {
    && keys == Dedup(Names(ls[..i]))
    && (forall n :: n in m <==> n in keys)
    && forall n :: n in m ==> Some(m[n]) == LastWith(ls[..i], n)
  }

  /** Setting label `i` into the map keeps MapAfter. */
  lemma MapAfterStep(ls: seq<Label>, i: nat, keys: seq<string>, m: map<string, Label>, keys': seq<string>, m': map<string, Label>)
    requires i < |ls| && MapAfter(ls, i, keys, m)
    requires keys' == (if ls[i].name in m then keys else keys + [ls[i].name]) && m' == m[ls[i].name := ls[i]]
    ensures MapAfter(ls, i + 1, keys', m')
  {
    DedupStep(ls, i, keys, m);
    KeysStep(keys, m, m', ls[i].name, ls[i]);
    LastStep(ls, i, m, m');
  }

  /** The key list grows by the label's name exactly when the map did not hold it. */
  lemma DedupStep(ls: seq<Label>, i: nat, keys: seq<string>, m: map<string, Label>)
    requires i < |ls| && keys == Dedup(Names(ls[..i]))
    requires forall n :: n in m <==> n in keys
    ensures (if ls[i].name in m then keys else keys + [ls[i].name]) == Dedup(Names(ls[..i + 1]))
  {
    SnocNames(ls, i);
  }

  /** Setting a name keeps the map's keys those of the key list, extended when the name is new. */
  lemma KeysStep(keys: seq<string>, m: map<string, Label>, m': map<string, Label>, x: string, l: Label)
    requires forall n :: n in m <==> n in keys
    requires m' == m[x := l]
    ensures forall n :: n in m' <==> n in (if x in m then keys else keys + [x])
  {
  }

  /** Setting label `i` keeps every entry the last label of its name. */
  lemma LastStep(ls: seq<Label>, i: nat, m: map<string, Label>, m': map<string, Label>)
    requires i < |ls| && m' == m[ls[i].name := ls[i]]
    requires forall n :: n in m ==> Some(m[n]) == LastWith(ls[..i], n)
    ensures forall n :: n in m' ==> Some(m'[n]) == LastWith(ls[..i + 1], n)
  {
    SnocLast(ls, i);
  }

  /** Reading the values back in key order gives DistinctLabels. */
  lemma MapAfterAll(ls: seq<Label>, keys: seq<string>, m: map<string, Label>)
    requires MapAfter(ls, |ls|, keys, m)
    ensures forall j :: 0 <= j < |keys| ==> keys[j] in m
    ensures seq(|keys|, j requires 0 <= j < |keys| && keys[j] in m => m[keys[j]]) == DistinctLabels(ls)
  {
    assert ls[..|ls|] == ls;
  }

  /** Setting every label of `ls` into a `Map` keyed by name, in order, and reading back its values. */
  method LastByName(ls: seq<Label>) returns (r: seq<Label>)
    ensures r == DistinctLabels(ls)
  {
    var keys: seq<string> := [];
    var m: map<string, Label> := map[];
    assert ls[..0] == [];
    for i := 0 to |ls|
      invariant MapAfter(ls, i, keys, m)
    {
      var l := ls[i];
      var keys', m' := if l.name in m then keys else keys + [l.name], m[l.name := l];
      MapAfterStep(ls, i, keys, m, keys', m');
      keys, m := keys', m';
    }
    MapAfterAll(ls, keys, m);
    r := seq(|keys|, j requires 0 <= j < |keys| && keys[j] in m => m[keys[j]]);
  }

  /** Every label name on any item is listed exactly once, in order of first appearance. */
  lemma AllLabelsOnePerName(items: seq<Item>)
    ensures var r := DistinctLabels(Flatten(items));
      && NoDup(Names(r))
      && (forall i, k :: 0 <= i < |items| && 0 <= k < |items[i].labels| ==> items[i].labels[k].name in Names(r))
      && (forall j, j' :: 0 <= j < j' < |r| ==>
            FirstIndex(Names(Flatten(items)), r[j].name) < FirstIndex(Names(Flatten(items)), r[j'].name))
  {
    var flat := Flatten(items);
    var r := DistinctLabels(flat);
    DedupKeepsFirstOccurrenceOrder(Names(flat));
    forall i, k | 0 <= i < |items| && 0 <= k < |items[i].labels|
      ensures items[i].labels[k].name in Names(r)
    {
      var l := items[i].labels[k];
      assert l in flat;
      var x :| 0 <= x < |flat| && flat[x] == l;
      assert Names(flat)[x] == l.name;
    }
    forall j, j' | 0 <= j < j' < |r|
      ensures FirstIndex(Names(flat), r[j].name) < FirstIndex(Names(flat), r[j'].name)
    {
      assert Names(r)[j] == r[j].name && Names(r)[j'] == r[j'].name;
    }
  }

  /** Each listed label is the last one with its name: a later duplicate replaces an earlier one. */
  lemma LastSeenWins(ls: seq<Label>, j: nat)
    requires j < |DistinctLabels(ls)|
    ensures var l := DistinctLabels(ls)[j];
      exists k :: (0 <= k < |ls| && ls[k] == l && forall k' :: k < k' < |ls| ==> ls[k'].name != l.name)
  {
    var l := DistinctLabels(ls)[j];
    LastWithIsLast(ls, l.name);
  }

  /**
   * The label filter's options, `allLabels.reduce((a, { name }) => { a[name] = name; return a; }, {})`:
   * every label name maps to itself.
   */
  method FilterOptions(labels: seq<Label>) returns (a: map<string, string>)
    ensures a.Keys == set k | 0 <= k < |labels| :: labels[k].name
    ensures forall n :: n in a ==> a[n] == n
  {
    a := map[];
    for i := 0 to |labels|
      invariant a.Keys == set k | 0 <= k < i :: labels[k].name
      invariant forall n :: n in a ==> a[n] == n
    {
      a := a[labels[i].name := labels[i].name];
    }
  }

  /** A row's `filterValue`: its label names, in order. */
  function FilterValue(cell: seq<Label>): (r: seq<string>)
    ensures |r| == |cell| && forall i :: 0 <= i < |cell| ==> r[i] == cell[i].name
  {
    Names(cell)
  }

  /** The icons of a sortable column's caret. */
  datatype Caret = ArrowTop | ArrowBottom | ArrowVertical

  /** `sortCaret(order)`. */
  function SortCaret(order: Option<string>): (c: Caret)
    ensures c == ArrowTop <==> order == Some("asc")
    ensures c == ArrowBottom <==> order == Some("desc")
  {
    if order == Some("asc") then ArrowTop
    else if order == Some("desc") then ArrowBottom
    else ArrowVertical
  }

  /** The type column's picture. */
  datatype Logo = IssueLogo | PullRequestLogo

  /** The type formatter: `cell === 'Issue'` picks the issue logo, anything else the pull-request logo. */
  function TypeLogo(cell: string): (l: Logo)
    ensures l == IssueLogo <==> cell == "Issue"
  {
    if cell == "Issue" then IssueLogo else PullRequestLogo
  }
}
