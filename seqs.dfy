/**
 * Sequence operations that the dashboard's JavaScript expresses with arrays:
 * `Array.from(new Set(xs))` (Dedup), `xs.filter(n => !cur.includes(n)).concat(cur)`
 * (PrependNew) and `xs.join(sep)` (Join).
 */
module Seqs {

  /** No element occurs twice. */
  predicate NoDup<T(==)>(xs: seq<T>) {
    forall i, j :: 0 <= i < j < |xs| ==> xs[i] != xs[j]
  }

  /** The index of the first occurrence of x in xs (`xs.indexOf(x)`). */
  function FirstIndex<T(==)>(xs: seq<T>, x: T): (k: nat)
    requires x in xs
    ensures k < |xs| && xs[k] == x && x !in xs[..k]
  {
    if xs[0] == x then 0
    else
      var k := 1 + FirstIndex(xs[1..], x);
      assert xs[..k] == [xs[0]] + xs[1..][..k - 1];
      k
  }

  /**
   * `Array.from(new Set(xs))`: a Set remembers insertion order, so the result
   * keeps the first occurrence of every element, in the order of xs.
   */
  function Dedup<T(==)>(xs: seq<T>): (r: seq<T>)
    ensures NoDup(r)
    ensures forall i :: 0 <= i < |r| ==> r[i] in xs
    ensures forall i :: 0 <= i < |xs| ==> xs[i] in r
    decreases |xs|
  {
    if xs == [] then []
    else
      var d := Dedup(xs[..|xs| - 1]);
      var x := xs[|xs| - 1];
      assert xs == xs[..|xs| - 1] + [x];
      if x in d then d else d + [x]
  }

  lemma {:induction false} FirstIndexInPrefix<T>(xs: seq<T>, ys: seq<T>, x: T)
    requires x in xs
    ensures FirstIndex(xs + ys, x) == FirstIndex(xs, x)
  {
    if xs[0] != x {
      assert (xs + ys)[1..] == xs[1..] + ys;
      FirstIndexInPrefix(xs[1..], ys, x);
    }
  }

  lemma FirstIndexAtEnd<T>(xs: seq<T>, x: T)
    requires x !in xs
    ensures FirstIndex(xs + [x], x) == |xs|
  {
  }

  /** The elements of Dedup(xs) appear in the order of their first occurrences in xs. */
  lemma {:induction false} DedupKeepsFirstOccurrenceOrder<T>(xs: seq<T>)
    ensures forall i, j :: 0 <= i < j < |Dedup(xs)| ==>
      FirstIndex(xs, Dedup(xs)[i]) < FirstIndex(xs, Dedup(xs)[j])
    decreases |xs|
  {
    if xs != [] {
      var n := |xs| - 1;
      var init, x := xs[..n], xs[n];
      assert xs == init + [x];
      var d := Dedup(init);
      DedupKeepsFirstOccurrenceOrder(init);
      forall y | y in d
        ensures FirstIndex(xs, y) == FirstIndex(init, y) && FirstIndex(init, y) < n
      {
        FirstIndexInPrefix(init, [x], y);
      }
      if x !in d {
        FirstIndexAtEnd(init, x);
        assert Dedup(xs) == d + [x];
        forall i, j | 0 <= i < j < |Dedup(xs)|
          ensures FirstIndex(xs, Dedup(xs)[i]) < FirstIndex(xs, Dedup(xs)[j])
        {
          assert Dedup(xs)[i] == d[i];
          if j < |d| {
            assert Dedup(xs)[j] == d[j];
          }
        }
      }
    }
  }

  /** A sequence without duplicates is its own deduplication. */
  lemma {:induction false} DedupOfNoDup<T>(xs: seq<T>)
    requires NoDup(xs)
    ensures Dedup(xs) == xs
    decreases |xs|
  {
    if xs != [] {
      var n := |xs| - 1;
      assert NoDup(xs[..n]);
      DedupOfNoDup(xs[..n]);
      assert xs[n] !in xs[..n];
      assert xs == xs[..n] + [xs[n]];
    }
  }

  /** `xs.filter(n => !present.includes(n))`. */
  function Absent<T(==)>(xs: seq<T>, present: seq<T>): (r: seq<T>)
    ensures forall i :: 0 <= i < |r| ==> r[i] in xs && r[i] !in present
    ensures forall i :: 0 <= i < |xs| && xs[i] !in present ==> xs[i] in r
    ensures |r| <= |xs|
  {
    if xs == [] then []
    else if xs[0] in present then Absent(xs[1..], present)
    else [xs[0]] + Absent(xs[1..], present)
  }

  lemma {:induction false} AbsentNoDup<T>(xs: seq<T>, present: seq<T>)
    requires NoDup(xs)
    ensures NoDup(Absent(xs, present))
  {
    if xs != [] {
      assert NoDup(xs[1..]);
      AbsentNoDup(xs[1..], present);
      assert xs[0] !in xs[1..];
    }
  }

  lemma {:induction false} AbsentOfAllPresent<T>(xs: seq<T>, present: seq<T>)
    requires forall i :: 0 <= i < |xs| ==> xs[i] in present
    ensures Absent(xs, present) == []
  {
    if xs != [] {
      AbsentOfAllPresent(xs[1..], present);
    }
  }

  /**
   * The list merge of every "create" handler of the settings forms:
   * the newly parsed entries not yet present, followed by the current list.
   */
  function PrependNew<T(==)>(parsed: seq<T>, current: seq<T>): seq<T> {
    Absent(parsed, current) + current
  }

  /** What PrependNew promises: current survives unchanged as a suffix, preceded by new entries only. */
  lemma PrependNewMerges<T>(parsed: seq<T>, current: seq<T>)
    ensures var r := PrependNew(parsed, current);
      && |r| >= |current|
      && r[|r| - |current|..] == current
      && (forall i :: 0 <= i < |r| - |current| ==> r[i] in parsed && r[i] !in current)
      && (forall x :: x in r <==> x in parsed || x in current)
  {
    var r := PrependNew(parsed, current);
    var a := Absent(parsed, current);
    assert r[|a|..] == current;
    forall i | 0 <= i < |a| ensures r[i] in parsed && r[i] !in current {
      assert r[i] == a[i];
    }
  }

  /** Merging duplicate-free lists yields a duplicate-free list. */
  lemma PrependNewNoDup<T>(parsed: seq<T>, current: seq<T>)
    requires NoDup(parsed) && NoDup(current)
    ensures NoDup(PrependNew(parsed, current))
  {
    var a := Absent(parsed, current);
    AbsentNoDup(parsed, current);
    var r := a + current;
    forall i, j | 0 <= i < j < |r| ensures r[i] != r[j] {
      if j < |a| {
        assert r[i] == a[i] && r[j] == a[j];
      } else if i < |a| {
        assert r[i] == a[i] && r[j] == current[j - |a|];
      } else {
        assert r[i] == current[i - |a|] && r[j] == current[j - |a|];
      }
    }
  }

  /** Creating the same entries twice changes nothing the second time. */
  lemma PrependNewIdempotent<T>(parsed: seq<T>, current: seq<T>)
    ensures PrependNew(parsed, PrependNew(parsed, current)) == PrependNew(parsed, current)
  {
    var r := PrependNew(parsed, current);
    PrependNewMerges(parsed, current);
    AbsentOfAllPresent(parsed, r);
  }

  /** Concatenation regrouped: the last two parts appended together or one after the other. */
  lemma AppendAssoc<T>(a: seq<T>, b: seq<T>, c: seq<T>, d: seq<T>)
    ensures a + b + (c + d) == a + b + c + d
  {
  }

  /** Concatenation regrouped, three parts. */
  lemma AppendAssoc3<T>(a: seq<T>, b: seq<T>, c: seq<T>)
    ensures a + (b + c) == a + b + c
  {
  }

  /** `xs.join(sep)`. */
  function Join(xs: seq<string>, sep: string): string {
    if xs == [] then ""
    else if |xs| == 1 then xs[0]
    else xs[0] + sep + Join(xs[1..], sep)
  }

  /** A join followed by a separator and more text is its first element, the separator, and the rest of it. */
  lemma JoinThenRest(xs: seq<string>, sep: string, rest: string)
    requires xs != []
    ensures Join(xs, sep) + sep + rest == xs[0] + sep + (if |xs| == 1 then rest else Join(xs[1..], sep) + sep + rest)
  {
  }
}
