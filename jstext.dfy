/**
 * The JavaScript string primitives the dashboard relies on, written out for the
 * inputs it gives them: the white-space class shared by `\s` and `String#trim`,
 * `trim`, `substring`, the separator split `s.split(/(,\s*)|\s+/g)`, and
 * `parseInt(s, 16)`. Characters stand for UTF-16 code units.
 */
module JsText {
  import opened Wrappers
  import Seqs

  /** ECMAScript WhiteSpace and LineTerminator code points: the set matched by `\s` and removed by `trim`. */
  predicate IsJsWhitespace(c: char) {
    (c <= ' ' && (c == '\t' || c == '\n' || c == '\U{000B}' || c == '\U{000C}' || c == '\r' || c == ' '))
    || ('\U{00A0}' <= c
        && (c == '\U{00A0}' || c == '\U{1680}' || ('\U{2000}' <= c <= '\U{200A}')
            || c == '\U{2028}' || c == '\U{2029}' || c == '\U{202F}' || c == '\U{205F}'
            || c == '\U{3000}' || c == '\U{FEFF}'))
  }

  /** The end of the white-space run that starts at i: what a greedy `\s*` consumes. */
  function SkipWhitespace(s: string, i: nat): (e: nat)
    requires i <= |s|
    ensures i <= e <= |s|
    ensures forall k :: i <= k < e ==> IsJsWhitespace(s[k])
    ensures e < |s| ==> !IsJsWhitespace(s[e])
    decreases |s| - i
  {
    if i < |s| && IsJsWhitespace(s[i]) then SkipWhitespace(s, i + 1) else i
  }

  /** `s.trimStart()`: the suffix of s that starts at its first non-white-space character. */
  function TrimStart(s: string): (r: string)
    ensures |r| <= |s| && r == s[|s| - |r|..]
    ensures r == [] || !IsJsWhitespace(r[0])
    ensures forall i :: 0 <= i < |s| - |r| ==> IsJsWhitespace(s[i])
  {
    if s != [] && IsJsWhitespace(s[0]) then
      var r := TrimStart(s[1..]);
      assert s[1..][|s| - 1 - |r|..] == s[|s| - |r|..];
      assert forall i :: 1 <= i < |s| - |r| ==> s[i] == s[1..][i - 1];
      r
    else s
  }

  /** `s.trimEnd()`: the prefix of s that ends at its last non-white-space character. */
  function TrimEnd(s: string): (r: string)
    ensures |r| <= |s| && r == s[..|r|]
    ensures r == [] || !IsJsWhitespace(r[|r| - 1])
    ensures forall i :: |r| <= i < |s| ==> IsJsWhitespace(s[i])
  {
    if s != [] && IsJsWhitespace(s[|s| - 1]) then TrimEnd(s[..|s| - 1]) else s
  }

  /** `s.trim()`. */
  function Trim(s: string): string {
    TrimEnd(TrimStart(s))
  }

  /** A string without white space at either end is its own trim. */
  lemma TrimOfTrimmed(s: string)
    requires s == [] || (!IsJsWhitespace(s[0]) && !IsJsWhitespace(s[|s| - 1]))
    ensures Trim(s) == s
  {
  }

  /** A single character that is not white space is its own trim. */
  lemma TrimOfNonBlankChar(c: char)
    requires !IsJsWhitespace(c)
    ensures Trim([c]) == [c]
  {
    assert TrimStart([c]) == [c];
    assert TrimEnd([c]) == [c];
  }

  /** `s.substring(a, b)`: both bounds clamped to 0..|s|, swapped when reversed. */
  function Substring(s: string, a: int, b: int): (r: string)
    ensures |r| <= |s|
  {
    var lo := if a < 0 then 0 else if a > |s| then |s| else a;
    var hi := if b < 0 then 0 else if b > |s| then |s| else b;
    var start, end := if lo <= hi then lo else hi, if lo <= hi then hi else lo;
    seq(end - start, k requires 0 <= k < end - start => s[start + k])
  }

  /** Within bounds, `substring` is the slice. */
  lemma SubstringInRange(s: string, a: int, b: int)
    requires 0 <= a <= b <= |s|
    ensures Substring(s, a, b) == s[a..b]
  {
  }

  // ---------------------------------------------------------------------------
  // The separator split `s.split(/(,\s*)|\s+/g)`.

  /** One element of the array `split` returns. */
  datatype Piece =
    | Text(text: string)       // a stretch between two separators
    | Captured(text: string)   // the `,\s*` group, which split splices into its result
    | Unmatched                // `undefined`: the group did not take part (an `\s+` separator)

  /** A character at which one of the two alternatives of the separator can match. */
  predicate StartsSeparator(c: char) {
    c == ',' || IsJsWhitespace(c)
  }

  /** The first index at or after i where a separator starts, or |s| if there is none. */
  function SeparatorIndex(s: string, i: nat): (q: nat)
    requires i <= |s|
    ensures i <= q <= |s|
    ensures forall k :: i <= k < q ==> !StartsSeparator(s[k])
    ensures q < |s| ==> StartsSeparator(s[q])
    decreases |s| - i
  {
    if i == |s| || StartsSeparator(s[i]) then i else SeparatorIndex(s, i + 1)
  }

  /** What a piece of the split can look like. */
  predicate WellFormedPiece(p: Piece) {
    match p
    case Text(t) => forall k :: 0 <= k < |t| ==> !StartsSeparator(t[k])
    case Captured(c) => |c| >= 1 && c[0] == ',' && forall k :: 1 <= k < |c| ==> IsJsWhitespace(c[k])
    case Unmatched => true
  }

  /**
   * `s.split(/(,\s*)|\s+/g)`. At a comma the first alternative matches the comma
   * and the white space after it, and that text is spliced in as a captured
   * piece; at white space only `\s+` matches, and its missing group gives
   * `undefined`. The text after the last separator, possibly empty, ends the array.
   */
  function SplitSeparators(s: string): (r: seq<Piece>)
    ensures |r| >= 1 && r[|r| - 1].Text?
    ensures forall k :: 0 <= k < |r| ==> WellFormedPiece(r[k])
    decreases |s|
  {
    var q := SeparatorIndex(s, 0);
    if q == |s| then [Text(s)]
    else
      var e := SeparatorEnd(s, q);
      var sep := if s[q] == ',' then Captured(s[q..e]) else Unmatched;
      [Text(s[..q]), sep] + SplitSeparators(s[e..])
  }

  /** Where the separator starting at q ends: after the comma and the white space following it, or after the white space. */
  function SeparatorEnd(s: string, q: nat): (e: nat)
    requires q < |s| && StartsSeparator(s[q])
    ensures q < e <= |s|
    ensures s[q] == ',' ==> WellFormedPiece(Captured(s[q..e]))
    ensures forall k :: q < k < e ==> IsJsWhitespace(s[k])
    ensures e < |s| ==> !IsJsWhitespace(s[e])
  {
    var e := if s[q] == ',' then SkipWhitespace(s, q + 1) else SkipWhitespace(s, q);
    assert s[q] == ',' ==> forall k :: 1 <= k < e - q ==> s[q..e][k] == s[q + k];
    e
  }

  /** `.filter(n => n)` on one string: an empty string is falsy and dropped. */
  function KeptIfTruthy(t: string): (r: seq<string>)
    ensures |r| <= 1
  {
    if t == "" then [] else [t]
  }

  /** `n && n.trim()` of one piece, kept by `.filter(n => n)` only when non-empty. */
  function Survivor(p: Piece): (r: seq<string>)
    ensures |r| <= 1
  {
    if p.Unmatched? then [] else KeptIfTruthy(Trim(p.text))
  }

  /** `n && n.trim()`, followed by `.filter(n => n)`: what survives of the split pieces. */
  function TrimmedTruthy(pieces: seq<Piece>): seq<string> {
    if pieces == [] then []
    else
      var rest := TrimmedTruthy(pieces[1..]);
      match pieces[0]
      case Unmatched => rest
      case Text(t) => if Trim(t) == "" then rest else [Trim(t)] + rest
      case Captured(c) => if Trim(c) == "" then rest else [Trim(c)] + rest
  }

  /**
   * The tokens of a user-typed list: `s.split(/(,\s*)|\s+/g).map(n => n && n.trim()).filter(n => n)`.
   */
  function Tokens(s: string): seq<string> {
    TrimmedTruthy(SplitSeparators(s))
  }

  /** A list token: a non-empty piece of text free of commas and white space, or the bare `","` of a captured separator. */
  predicate IsListToken(t: string) {
    t == "," || (t != "" && forall k :: 0 <= k < |t| ==> !StartsSeparator(t[k]))
  }

  /** Trimming the end of a string that is one non-blank character followed by white space leaves that character. */
  lemma {:induction false} TrimEndToHead(s: string)
    requires |s| >= 1 && !IsJsWhitespace(s[0])
    requires forall k :: 1 <= k < |s| ==> IsJsWhitespace(s[k])
    ensures TrimEnd(s) == s[..1]
    decreases |s|
  {
    if |s| > 1 {
      TrimEndToHead(s[..|s| - 1]);
    }
  }

  /** A captured separator `,\s*` trims to the bare comma. */
  lemma TrimCaptured(c: string)
    requires WellFormedPiece(Captured(c))
    ensures Trim(c) == ","
  {
    assert TrimStart(c) == c;
    TrimEndToHead(c);
  }

  lemma {:induction false} TrimmedTruthyTokens(pieces: seq<Piece>)
    requires forall k :: 0 <= k < |pieces| ==> WellFormedPiece(pieces[k])
    ensures forall k :: 0 <= k < |TrimmedTruthy(pieces)| ==> IsListToken(TrimmedTruthy(pieces)[k])
  {
    if pieces != [] {
      TrimmedTruthyTokens(pieces[1..]);
      match pieces[0]
      case Unmatched =>
      case Text(t) =>
        if t != [] {
          TrimOfTrimmed(t);
        }
      case Captured(c) =>
        TrimCaptured(c);
    }
  }

  /** The first piece leaves what it leaves, ahead of what the rest leave. */
  lemma TrimmedTruthyCons(p: Piece, rest: seq<Piece>)
    ensures TrimmedTruthy([p] + rest) == Survivor(p) + TrimmedTruthy(rest)
  {
    assert ([p] + rest)[1..] == rest;
  }

  /** One piece leaves what it leaves. */
  lemma TrimmedTruthyOne(p: Piece)
    ensures TrimmedTruthy([p]) == Survivor(p)
  {
    assert [p][1..] == [];
  }

  /** Three pieces leave what each of them leaves, in order. */
  lemma TrimmedTruthyOfThree(a: Piece, b: Piece, c: Piece)
    ensures TrimmedTruthy([a, b, c]) == Survivor(a) + Survivor(b) + Survivor(c)
  {
    var s1 := [c];
    var s2 := [b] + s1;
    var s3 := [a] + s2;
    TrimmedTruthyOne(c);
    TrimmedTruthyCons(b, s1);
    TrimmedTruthyCons(a, s2);
    assert s3 == [a, b, c];
    Seqs.AppendAssoc3(Survivor(a), Survivor(b), Survivor(c));
  }

  /** The tokens of a text the split cuts into three pieces: what each piece leaves, in order. */
  lemma TokensOfThree(s: string, a: Piece, b: Piece, c: Piece)
    requires SplitSeparators(s) == [a, b, c]
    ensures Tokens(s) == Survivor(a) + Survivor(b) + Survivor(c)
  {
    TrimmedTruthyOfThree(a, b, c);
  }

  /** A one-character text or captured piece that is not white space survives as itself. */
  lemma SurvivorOfChar(p: Piece, c: char)
    requires !p.Unmatched? && p.text == [c] && !IsJsWhitespace(c)
    ensures Survivor(p) == [[c]]
  {
    TrimOfNonBlankChar(c);
  }

  /** Every token is either `","` or a non-empty run free of commas and white space. */
  lemma TokensAreListTokens(s: string)
    ensures forall k :: 0 <= k < |Tokens(s)| ==> IsListToken(Tokens(s)[k])
  {
    TrimmedTruthyTokens(SplitSeparators(s));
  }

  // ---------------------------------------------------------------------------
  // `parseInt(s, 16)`.

  predicate IsHexDigit(c: char) {
    ('0' <= c <= '9') || ('a' <= c <= 'f') || ('A' <= c <= 'F')
  }

  function HexDigitValue(c: char): (v: nat)
    requires IsHexDigit(c)
    ensures v < 16
  {
    if '0' <= c <= '9' then (c as int) - ('0' as int)
    else if 'a' <= c <= 'f' then (c as int) - ('a' as int) + 10
    else (c as int) - ('A' as int) + 10
  }

  /** The number of leading hexadecimal digits of s. */
  function HexPrefixLength(s: string): (n: nat)
    ensures n <= |s|
    ensures forall k :: 0 <= k < n ==> IsHexDigit(s[k])
    ensures n < |s| ==> !IsHexDigit(s[n])
  {
    if s != [] && IsHexDigit(s[0]) then 1 + HexPrefixLength(s[1..]) else 0
  }

  /** The value of a string of hexadecimal digits, most significant first. */
  function HexValue(s: string): nat
    requires forall k :: 0 <= k < |s| ==> IsHexDigit(s[k])
  {
    if s == [] then 0 else 16 * HexValue(s[..|s| - 1]) + HexDigitValue(s[|s| - 1])
  }

  /**
   * `parseInt(s, 16)`: leading white space is skipped, one sign is read, a `0x`
   * or `0X` prefix is dropped, and the longest run of hexadecimal digits is
   * read; without a digit the result is NaN (None).
   */
  function ParseIntHex(s: string): Option<int> {
    var t := TrimStart(s);
    var negative := |t| > 0 && t[0] == '-';
    var u := if |t| > 0 && (t[0] == '-' || t[0] == '+') then t[1..] else t;
    var v := if |u| >= 2 && u[0] == '0' && (u[1] == 'x' || u[1] == 'X') then u[2..] else u;
    match HexDigitsValue(v)
    case None => None
    case Some(h) => Some(if negative then -(h as int) else h as int)
  }

  /** The longest leading run of hexadecimal digits of v, read as a number; None when v starts with none. */
  function HexDigitsValue(v: string): (r: Option<nat>)
    ensures r.None? <==> HexPrefixLength(v) == 0
  {
    var n := HexPrefixLength(v);
    if n == 0 then None else Some(HexValue(v[..n]))
  }

  /** A hexadecimal digit is neither white space, nor a sign, nor the `x` of a `0x` prefix. */
  lemma HexDigitIsPlain(c: char)
    requires IsHexDigit(c)
    ensures !IsJsWhitespace(c) && c != '-' && c != '+' && c != 'x' && c != 'X'
  {
  }

  /** Two hexadecimal digits are read as a two-digit prefix. */
  lemma HexPrefixOfTwo(s: string)
    requires |s| == 2 && IsHexDigit(s[0]) && IsHexDigit(s[1])
    ensures HexPrefixLength(s) == 2
  {
    assert s[1..][0] == s[1] && |s[1..][1..]| == 0;
  }

  /** The value of two hexadecimal digits. */
  lemma HexValueOfTwo(s: string)
    requires |s| == 2 && IsHexDigit(s[0]) && IsHexDigit(s[1])
    ensures HexValue(s) == 16 * HexDigitValue(s[0]) + HexDigitValue(s[1])
  {
    var h := s[..1];
    assert |h[..0]| == 0 && h[0] == s[0] && s[..|s| - 1] == h;
    assert HexValue(h) == HexDigitValue(s[0]);
  }

  /** Two hexadecimal digits parse to 16 * high + low, a value in 0..255. */
  lemma ParseTwoHexDigits(s: string)
    requires |s| == 2 && IsHexDigit(s[0]) && IsHexDigit(s[1])
    ensures ParseIntHex(s) == Some(16 * HexDigitValue(s[0]) + HexDigitValue(s[1]))
    ensures 0 <= ParseIntHex(s).value <= 255
  {
    HexDigitIsPlain(s[0]);
    HexDigitIsPlain(s[1]);
    assert TrimStart(s) == s;
    HexPrefixOfTwo(s);
    assert s[..2] == s;
    HexValueOfTwo(s);
  }
}
