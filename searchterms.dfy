/**
 * How a GitHub search string is read: as a list of terms separated by spaces,
 * where a space between double quotes belongs to the term
 * (`label:"help wanted"` is one qualifier). This is the reading the search
 * builders rely on; it describes the service, not code of the dashboard.
 */
module SearchTerms {
  import opened Seqs

  /** The index where the term scanned from i ends: the first space outside quotes, or |s|. */
  function TermEnd(s: string, i: nat, quoted: bool): (k: nat)
    requires i <= |s|
    ensures i <= k <= |s|
    decreases |s| - i
  {
    if i == |s| then i
    else if s[i] == ' ' && !quoted then i
    else TermEnd(s, i + 1, if s[i] == '"' then !quoted else quoted)
  }

  /** The terms of a search string, in order. */
  function Terms(s: string): seq<string>
    decreases |s|
  {
    if s == [] then []
    else if s[0] == ' ' then Terms(s[1..])
    else
      var k := TermEnd(s, 0, false);
      assert k > 0;
      [s[..k]] + Terms(s[k..])
  }

  /** A single term: non-empty, not starting with a space, and closed, so that a following space ends it. */
  predicate IsTerm(x: string) {
    x != [] && x[0] != ' ' && TermEnd(x + " ", 0, false) == |x|
  }

  /** Text without spaces and without quotes. */
  predicate IsPlain(x: string) {
    forall k :: 0 <= k < |x| ==> x[k] != ' ' && x[k] != '"'
  }

  /** An end found inside s does not move when more text follows. */
  lemma {:induction false} TermEndExtend(s: string, t: string, i: nat, quoted: bool)
    requires i <= |s| && TermEnd(s, i, quoted) < |s|
    ensures TermEnd(s + t, i, quoted) == TermEnd(s, i, quoted)
    decreases |s| - i
  {
    assert (s + t)[i] == s[i];
    if !(s[i] == ' ' && !quoted) {
      TermEndExtend(s, t, i + 1, if s[i] == '"' then !quoted else quoted);
    }
  }

  /** An end found at or after |s| in s + t means s holds no end of its own. */
  lemma {:induction false} TermEndPrefix(s: string, t: string, i: nat, quoted: bool)
    requires i <= |s| && TermEnd(s + t, i, quoted) >= |s|
    ensures TermEnd(s, i, quoted) == |s|
    decreases |s| - i
  {
    if i < |s| {
      assert (s + t)[i] == s[i];
      TermEndPrefix(s, t, i + 1, if s[i] == '"' then !quoted else quoted);
    }
  }

  /** Plain text is skipped over by the scan. */
  lemma {:induction false} TermEndSkipsPlain(s: string, i: nat, j: nat, quoted: bool)
    requires i <= j <= |s|
    requires forall k :: i <= k < j ==> s[k] != '"' && (quoted || s[k] != ' ')
    ensures TermEnd(s, i, quoted) == TermEnd(s, j, quoted)
    decreases j - i
  {
    if i < j {
      TermEndSkipsPlain(s, i + 1, j, quoted);
    }
  }

  /** Leading spaces are not part of any term. */
  lemma SpaceThenTerms(rest: string)
    ensures Terms(" " + rest) == Terms(rest)
  {
    assert (" " + rest)[1..] == rest;
  }

  /** Regrouping a space-separated concatenation so that its last part can be read on its own. */
  lemma Regroup(a: string, b: string, c: string, rest: string)
    ensures a + " " + b + " " + c + " " + rest == a + " " + b + " " + (c + " " + rest)
  {
  }

  /** Regrouping two space-separated parts followed by more text. */
  lemma Regroup2(a: string, b: string, rest: string)
    ensures a + " " + b + " " + rest == a + " " + (b + " " + rest)
  {
  }

  /** A term followed by a space and more text is read as that term, then the rest. */
  lemma TermThenRest(x: string, rest: string)
    requires IsTerm(x)
    ensures Terms(x + " " + rest) == [x] + Terms(rest)
  {
    var s := x + " " + rest;
    assert s == (x + " ") + rest;
    TermEndExtend(x + " ", rest, 0, false);
    assert s[..|x|] == x;
    assert s[|x|..] == " " + rest;
    SpaceThenTerms(rest);
  }

  /** A term on its own is read as itself. */
  lemma TermAlone(x: string)
    requires IsTerm(x)
    ensures Terms(x) == [x]
  {
    TermEndPrefix(x, " ", 0, false);
    assert x[..|x|] == x;
    assert x[|x|..] == [];
  }

  /** Non-empty plain text is a term. */
  lemma PlainIsTerm(x: string)
    requires x != [] && IsPlain(x)
    ensures IsTerm(x)
  {
    var s := x + " ";
    TermEndSkipsPlain(s, 0, |x|, false);
  }

  /**
   * Terms joined by single spaces, followed by a space and more text, are read
   * back as those terms, then the rest. With no terms only the space is left,
   * and it is skipped.
   */
  lemma {:induction false} JoinedTermsThenRest(xs: seq<string>, rest: string)
    requires forall i :: 0 <= i < |xs| ==> IsTerm(xs[i])
    ensures Terms(Join(xs, " ") + " " + rest) == xs + Terms(rest)
  {
    if xs == [] {
      SpaceThenTerms(rest);
    } else if |xs| == 1 {
      TermThenRest(xs[0], rest);
    } else {
      var tail := Join(xs[1..], " ");
      assert Join(xs, " ") + " " + rest == xs[0] + " " + (tail + " " + rest);
      TermThenRest(xs[0], tail + " " + rest);
      JoinedTermsThenRest(xs[1..], rest);
      assert xs == [xs[0]] + xs[1..];
    }
  }
}
