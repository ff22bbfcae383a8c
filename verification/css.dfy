/**
 * The CSS `background` value a decorated comment receives: a flat colour or
 * a two-stop diagonal gradient, together with a parser that reads such a
 * value back, so that the composed string is shown to carry both colours in
 * order.
 */
module Css {
  import opened Wrappers

  /** What the background of a comment is filled with. */
  datatype Fill = Flat(color: string) | Gradient(from: string, to: string)

  /** Everything of a gradient value that precedes its first colour stop. */
  const GradientHead: string := "linear-gradient(to bottom right, "

  /** The separator between the two colour stops. */
  const StopSeparator: string := ", "

  /**
   * The CSS text assigned to `style.background` for a fill: the colour
   * itself, or the two stops in order inside the gradient text. Every
   * well-formed fill is recovered from the text written for it.
   */
  function CssBackground(f: Fill): (s: string)
    ensures WellFormed(f) ==> ParseCssBackground(s) == Some(f)
  {
    match f
    case Flat(c) => c
    case Gradient(a, b) =>
      GradientTextParses(a, b);
      GradientHead + a + StopSeparator + b + ")"
  }

  predicate IsHexDigit(c: char)
  {
    ('0' <= c <= '9') || ('a' <= c <= 'f') || ('A' <= c <= 'F')
  }

  /** A `#rrggbb` colour literal. */
  predicate IsHexColor(c: string)
  {
    |c| == 7 && c[0] == '#' && forall i :: 1 <= i < 7 ==> IsHexDigit(c[i])
  }

  /** Fills whose colours are all `#rrggbb` literals. */
  predicate WellFormed(f: Fill)
  {
    match f
    case Flat(c) => IsHexColor(c)
    case Gradient(a, b) => IsHexColor(a) && IsHexColor(b)
  }

  /** Position of the first `c` in `s`, or `|s|` when there is none. */
  function IndexOf(s: string, c: char): (k: nat)
    ensures k <= |s|
    ensures forall j :: 0 <= j < k ==> s[j] != c
    ensures k < |s| ==> s[k] == c
    decreases |s|
  {
    if |s| == 0 then 0
    else if s[0] == c then 0
    else 1 + IndexOf(s[1..], c)
  }

  /**
   * Reads a background value: a string starting with `#` is a flat colour,
   * a `linear-gradient(to bottom right, a, b)` string is split at its first
   * comma; anything else is not a value this engine writes.
   */
  function ParseCssBackground(s: string): Option<Fill>
  {
    if |s| > 0 && s[0] == '#' then Some(Flat(s))
    else if |GradientHead| < |s| && s[..|GradientHead|] == GradientHead && s[|s| - 1] == ')' then
      var inner := s[|GradientHead|..|s| - 1];
      var k := IndexOf(inner, ',');
      if k + 1 < |inner| && inner[k + 1] == ' ' then Some(Gradient(inner[..k], inner[k + 2..]))
      else None
    else None
  }

  /** The gradient text of two `#rrggbb` stops splits back into those stops, in order. */
  lemma GradientTextParses(a: string, b: string)
    ensures IsHexColor(a) && IsHexColor(b) ==>
              ParseCssBackground(GradientHead + a + StopSeparator + b + ")") == Some(Gradient(a, b))
  {
    if !(IsHexColor(a) && IsHexColor(b)) {
      return;
    }
    var s := GradientHead + a + StopSeparator + b + ")";
    var n := |GradientHead|;
    assert s == GradientHead + (a + StopSeparator + b + ")");
    assert s[0] == 'l';
    assert s[..n] == GradientHead;
    assert s[|s| - 1] == ')';
    var inner := s[n..|s| - 1];
    assert inner == a + StopSeparator + b;
    assert inner[7] == ',';
    assert forall j :: 0 <= j < 7 ==> inner[j] == a[j];
    var k := IndexOf(inner, ',');
    assert k == 7;
    assert inner[8] == ' ';
    assert inner[..7] == a;
    assert inner[9..] == b;
  }

  /** Whatever the parser accepts is exactly the CSS text of the fill it returns. */
  lemma CssOfParse(s: string)
    requires ParseCssBackground(s).Some?
    ensures CssBackground(ParseCssBackground(s).value) == s
  {
    if |s| > 0 && s[0] == '#' {
    } else {
      var n := |GradientHead|;
      var inner := s[n..|s| - 1];
      var k := IndexOf(inner, ',');
      assert inner[k] == ',' && inner[k + 1] == ' ';
      assert inner == inner[..k] + StopSeparator + inner[k + 2..];
      assert s == s[..n] + inner + [s[|s| - 1]];
    }
  }

  /** Distinct well-formed fills never produce the same CSS text. */
  lemma CssInjective(f: Fill, g: Fill)
    requires WellFormed(f) && WellFormed(g)
    requires CssBackground(f) == CssBackground(g)
    ensures f == g
  {
    assert ParseCssBackground(CssBackground(f)) == Some(f);
  }
}
