/**
 * The label chip: default GitHub labels are drawn in their standard colour
 * whatever colour the repository gave them, and the text on the chip is
 * light or dark depending on how bright the background is.
 */
module IssueLabel {
  import opened Wrappers
  import opened JsText

  /** A `[name, color]` entry of the colour table; colours are six hex digits without `#`. */
  datatype LabelColor = LabelColor(name: string, color: string)

  /** `KNOWN_LABEL_COLORS`, in insertion order. */
  const KnownLabelColors: seq<LabelColor> := [
    LabelColor("bug", "d73a4a"),
    LabelColor("documentation", "0075ca"),
    LabelColor("duplicate", "cfd3d7"),
    LabelColor("enhancement", "a2eeef"),
    LabelColor("good first issue", "7057ff"),
    LabelColor("help wanted", "008672"),
    LabelColor("invalid", "e4e669"),
    LabelColor("question", "d876e3"),
    LabelColor("wontfix", "ffffff"),
    LabelColor("dependencies", "0366d6"),
    LabelColor("repolinter", "fbca04")
  ]

  /** The text colours the chip chooses between. */
  const LightText: string := "#ffffff"
  const DarkText: string := "#000000"

  /** No two entries share a name, as in a `Map`. */
  predicate DistinctNames(table: seq<LabelColor>) {
    forall i, j :: 0 <= i < j < |table| ==> table[i].name != table[j].name
  }

  /** `table.has(name) ? table.get(name) : undefined`. */
  function Lookup(table: seq<LabelColor>, name: string): (r: Option<string>)
    ensures r.None? <==> forall i :: 0 <= i < |table| ==> table[i].name != name
    ensures r.Some? ==> exists i :: 0 <= i < |table| && table[i] == LabelColor(name, r.value)
  {
    if table == [] then None
    else if table[0].name == name then Some(table[0].color)
    else
      var r := Lookup(table[1..], name);
      assert r.Some? ==> table[1..][0] == table[1];
      r
  }

  /** In a table with distinct names every entry is what its name looks up. */
  lemma {:induction false} LookupOfEntry(table: seq<LabelColor>, i: nat)
    requires DistinctNames(table) && i < |table|
    ensures Lookup(table, table[i].name) == Some(table[i].color)
  {
    if i > 0 {
      assert table[0].name != table[i].name;
      assert table[1..][i - 1] == table[i];
      LookupOfEntry(table[1..], i - 1);
    }
  }

  /** Whether a colour is six hexadecimal digits. */
  predicate IsHexColor(c: string) {
    |c| == 6 && forall k :: 0 <= k < 6 ==> IsHexDigit(c[k])
  }

  lemma KnownTable()
    ensures |KnownLabelColors| == 11 && DistinctNames(KnownLabelColors)
    ensures forall i :: 0 <= i < |KnownLabelColors| ==> IsHexColor(KnownLabelColors[i].color)
  {
    KnownNamesDistinct();
    KnownColorsHex();
  }

  /** The default names differ in length or in their first letter. */
  lemma KnownNamesDistinct()
    ensures DistinctNames(KnownLabelColors)
  {
    forall i, j | 0 <= i < j < |KnownLabelColors|
      ensures KnownLabelColors[i].name != KnownLabelColors[j].name
    {
      var a, b := KnownLabelColors[i].name, KnownLabelColors[j].name;
      assert |a| != |b| || a[0] != b[0];
    }
  }

  /** Every default colour is six hex digits. */
  lemma KnownColorsHex()
    ensures forall i :: 0 <= i < |KnownLabelColors| ==> IsHexColor(KnownLabelColors[i].color)
  {
    forall i | 0 <= i < |KnownLabelColors| ensures IsHexColor(KnownLabelColors[i].color) {
      var c := KnownLabelColors[i].color;
      assert |c| == 6;
    }
  }

  /** The background of a chip: the table colour of a default label, otherwise the label's own colour. */
  function BackgroundColor(name: string, color: string): string {
    var known := Lookup(KnownLabelColors, name);
    if known.Some? then known.value else color
  }

  /** A default label is drawn in its table colour, whatever colour it arrives with. */
  lemma KnownLabelOverrides(i: nat, color: string)
    requires i < |KnownLabelColors|
    ensures BackgroundColor(KnownLabelColors[i].name, color) == KnownLabelColors[i].color
  {
    KnownTable();
    LookupOfEntry(KnownLabelColors, i);
  }

  /** Any other label is drawn in its own colour. */
  lemma UnknownLabelKeepsColor(name: string, color: string)
    requires forall i :: 0 <= i < |KnownLabelColors| ==> KnownLabelColors[i].name != name
    ensures BackgroundColor(name, color) == color
  {
  }

  // ---------------------------------------------------------------------------
  // Text colour.

  /** `bgColor.charAt(0) === '#' ? bgColor.substring(1, 7) : bgColor`. */
  function StripHash(bgColor: string): string {
    if |bgColor| > 0 && bgColor[0] == '#' then Substring(bgColor, 1, 7) else bgColor
  }

  /** The three two-character slices `[0, 2)`, `[2, 4)` and `[4, 6)` of the colour with `#` stripped. */
  function Slices(bgColor: string): (string, string, string) {
    var c := StripHash(bgColor);
    (Substring(c, 0, 2), Substring(c, 2, 4), Substring(c, 4, 6))
  }

  /** `0.299 r + 0.587 g + 0.114 b`, scaled by 1000 to stay in integers. */
  function Luma(r: int, g: int, b: int): int {
    299 * r + 587 * g + 114 * b
  }

  /**
   * Whether the weighted sum of the channels exceeds 186. A channel that does
   * not parse is NaN, which makes the comparison false.
   */
  predicate DarkBackground(bgColor: string) {
    var (sr, sg, sb) := Slices(bgColor);
    var r, g, b := ParseIntHex(sr), ParseIntHex(sg), ParseIntHex(sb);
    r.Some? && g.Some? && b.Some? && Luma(r.value, g.value, b.value) > 186000
  }

  /** `pickTextColorBasedOnBgColor`: dark text on a bright background, light text otherwise. */
  function PickTextColor(bgColor: string, light: string, dark: string): (t: string)
    ensures t == light || t == dark
  {
    if DarkBackground(bgColor) then dark else light
  }

  /** The text colour of a chip. */
  function TextColor(name: string, color: string): (t: string)
    ensures t == LightText || t == DarkText
  {
    PickTextColor(BackgroundColor(name, color), LightText, DarkText)
  }

  /** The value of the two hex digits at i and i + 1. */
  function HexChannel(c: string, i: nat): (v: nat)
    requires |c| == 6 && i <= 4 && IsHexDigit(c[i]) && IsHexDigit(c[i + 1])
    ensures v <= 255
  {
    16 * HexDigitValue(c[i]) + HexDigitValue(c[i + 1])
  }

  /** The slice `[i, i + 2)` of a six-character colour holds the two characters at i and i + 1. */
  lemma SliceIsPair(c: string, i: nat)
    requires |c| == 6 && i <= 4
    ensures var s := Substring(c, i, i + 2); |s| == 2 && s[0] == c[i] && s[1] == c[i + 1]
  {
  }

  lemma SliceOfHex(c: string, i: nat)
    requires |c| == 6 && i <= 4 && IsHexDigit(c[i]) && IsHexDigit(c[i + 1])
    ensures ParseIntHex(Substring(c, i, i + 2)) == Some(HexChannel(c, i))
  {
    SliceIsPair(c, i);
    ParseTwoHexDigits(Substring(c, i, i + 2));
  }

  /** Colours with the same three slices get the same text colour. */
  lemma SameSlicesSamePick(a: string, b: string, light: string, dark: string)
    requires Slices(a) == Slices(b)
    ensures PickTextColor(a, light, dark) == PickTextColor(b, light, dark)
  {
  }

  /** The text colour once the three slices are known to parse. */
  lemma PickOfChannels(bg: string, light: string, dark: string, r: int, g: int, b: int)
    requires ParseIntHex(Slices(bg).0) == Some(r)
    requires ParseIntHex(Slices(bg).1) == Some(g)
    requires ParseIntHex(Slices(bg).2) == Some(b)
    ensures PickTextColor(bg, light, dark) == if Luma(r, g, b) > 186000 then dark else light
  {
  }

  /** A six-digit colour is left as it is by the `#` strip, and so is the same colour after a `#`. */
  lemma StripOfHexColor(c: string)
    requires IsHexColor(c)
    ensures StripHash(c) == c && StripHash("#" + c) == c
  {
    assert IsHexDigit(c[0]);
    SubstringInRange("#" + c, 1, 7);
    assert ("#" + c)[1..7] == c;
  }

  /**
   * For a six-digit colour, with or without `#`, the text is dark exactly
   * when the scaled weighted sum of its three channels exceeds 186000.
   */
  lemma PickOfHexColor(c: string, light: string, dark: string)
    requires IsHexColor(c)
    ensures PickTextColor(c, light, dark) == PickTextColor("#" + c, light, dark)
    ensures PickTextColor(c, light, dark) ==
      if Luma(HexChannel(c, 0), HexChannel(c, 2), HexChannel(c, 4)) > 186000 then dark else light
  {
    StripOfHexColor(c);
    SameSlicesSamePick(c, "#" + c, light, dark);
    assert IsHexDigit(c[0]) && IsHexDigit(c[1]) && IsHexDigit(c[2]);
    assert IsHexDigit(c[3]) && IsHexDigit(c[4]) && IsHexDigit(c[5]);
    SliceOfHex(c, 0);
    SliceOfHex(c, 2);
    SliceOfHex(c, 4);
    PickOfChannels(c, light, dark, HexChannel(c, 0), HexChannel(c, 2), HexChannel(c, 4));
  }

  /** A leading `#` never changes the choice, as long as only one is stripped. */
  lemma HashIgnored(c: string, light: string, dark: string)
    requires c == [] || c[0] != '#'
    ensures PickTextColor("#" + c, light, dark) == PickTextColor(c, light, dark)
  {
    var h := "#" + c;
    assert h[1..] == c;
    if |c| <= 6 {
      SubstringInRange(h, 1, |h|);
      assert StripHash(h) == c;
    } else {
      SubstringInRange(h, 1, 7);
      var s := c[..6];
      assert StripHash(h) == s;
      SubstringInRange(s, 0, 2);
      SubstringInRange(s, 2, 4);
      SubstringInRange(s, 4, 6);
      SubstringInRange(c, 0, 2);
      SubstringInRange(c, 2, 4);
      SubstringInRange(c, 4, 6);
      assert s[0..2] == c[0..2] && s[2..4] == c[2..4] && s[4..6] == c[4..6];
    }
    assert Slices(h) == Slices(c);
    SameSlicesSamePick(h, c, light, dark);
  }

  /** Making every channel at least as bright never turns dark text light. */
  lemma BrighterStaysDark(c: string, d: string, light: string, dark: string)
    requires IsHexColor(c) && IsHexColor(d)
    requires HexChannel(c, 0) <= HexChannel(d, 0)
    requires HexChannel(c, 2) <= HexChannel(d, 2)
    requires HexChannel(c, 4) <= HexChannel(d, 4)
    requires light != dark
    ensures PickTextColor(c, light, dark) == dark ==> PickTextColor(d, light, dark) == dark
  {
    PickOfHexColor(c, light, dark);
    PickOfHexColor(d, light, dark);
  }

  /** White gets dark text and black gets light text. */
  lemma WhiteAndBlack(light: string, dark: string)
    ensures PickTextColor("ffffff", light, dark) == dark
    ensures PickTextColor("000000", light, dark) == light
  {
    assert IsHexColor("ffffff") && IsHexColor("000000");
    PickOfHexColor("ffffff", light, dark);
    PickOfHexColor("000000", light, dark);
  }

  /** `wontfix` is white in the table, so its chip always has dark text. */
  lemma WontfixHasDarkText(color: string)
    ensures TextColor("wontfix", color) == DarkText
  {
    KnownLabelOverrides(8, color);
    WhiteAndBlack(LightText, DarkText);
  }
}
