/**
 * The two fixed configuration tables of the userscript: the descending list
 * of nicoru counts that open a decoration tier, and the colour rule of each
 * tier.
 */
module NicoruTables {
  import opened Wrappers
  import opened Css

  /** Colours of one tier; `secondary` only matters when `isGradient`. */
  datatype ColorRule = ColorRule(primary: string, secondary: string, isGradient: bool)

  predicate StrictlyDescending(s: seq<int>)
  {
    forall i, j :: 0 <= i < j < |s| ==> s[i] > s[j]
  }

  /** The tier thresholds, scanned from the first entry onwards. */
  function NicoruCounts(): (counts: seq<int>)
    ensures StrictlyDescending(counts)
    ensures forall i :: 0 <= i < |counts| ==> counts[i] > 0
    ensures 15 in counts && forall t :: t in counts ==> 15 <= t
  {
    [300, 200, 100, 50, 30, 15]
  }

  /**
   * The colour table, keyed by tier; `None` is the `undefined` a record
   * lookup yields for a key it does not hold.
   */
  function ColorFor(id: int): (rule: Option<ColorRule>)
    ensures rule.Some? <==> id in NicoruCounts()
    ensures rule.Some? && rule.value.isGradient ==> rule.value.secondary != ""
    ensures rule.Some? ==> HexRule(rule.value)
  {
    if id == 15 then Some(ColorRule("#fcc442", "", false))
    else if id == 30 then Some(ColorRule("#fcb242", "", false))
    else if id == 50 then Some(ColorRule("#fc9f42", "", false))
    else if id == 100 then Some(ColorRule("#ffee9d", "#d9a300", true))
    else if id == 200 then Some(ColorRule("#ffcccc", "#ff8080", true))
    else if id == 300 then Some(ColorRule("#ff8080", "#ff0000", true))
    else None
  }

  /** A rule whose colours, the secondary only when it is used, are `#rrggbb` literals. */
  predicate HexRule(rule: ColorRule)
  {
    IsHexColor(rule.primary) && (rule.isGradient ==> IsHexColor(rule.secondary))
  }

  /**
   * The fill a rule stands for: its secondary colour is used only by a
   * gradient, and then as the second stop; a flat rule fills with its
   * primary colour alone.
   */
  function FillOf(rule: ColorRule): (f: Fill)
    ensures f.Gradient? <==> rule.isGradient
    ensures HexRule(rule) ==> WellFormed(f)
    ensures f.Gradient? ==> f.from == rule.primary && f.to == rule.secondary
    ensures !rule.isGradient ==> f == Flat(rule.primary)
  {
    if rule.isGradient then Gradient(rule.primary, rule.secondary) else Flat(rule.primary)
  }

  /** The `style.background` text written for a rule; it reads back as the rule's fill. */
  function BackgroundValue(rule: ColorRule): (v: string)
    ensures HexRule(rule) ==> ParseCssBackground(v) == Some(FillOf(rule))
  {
    CssBackground(FillOf(rule))
  }

  /**
   * The background written for a table rule is the exact gradient text with
   * the primary stop first, or the primary colour alone, and it reads back as
   * the rule's fill.
   */
  lemma TableBackgroundFormat(id: int)
    requires ColorFor(id).Some?
    ensures var rule := ColorFor(id).value;
      && (rule.isGradient ==>
            BackgroundValue(rule) == "linear-gradient(to bottom right, " + rule.primary + ", " + rule.secondary + ")")
      && (!rule.isGradient ==> BackgroundValue(rule) == rule.primary)
      && ParseCssBackground(BackgroundValue(rule)) == Some(FillOf(rule))
  {
  }

  /** A gradient rule's background is its two stops, primary first, in the gradient text. */
  lemma GradientRuleText(primary: string, secondary: string)
    ensures BackgroundValue(ColorRule(primary, secondary, true))
         == GradientHead + primary + StopSeparator + secondary + ")"
  {
  }

  /** The 100 tier fills with the yellow gradient, light stop first. */
  lemma HundredTierBackground()
    ensures ColorFor(100) == Some(ColorRule("#ffee9d", "#d9a300", true))
    ensures BackgroundValue(ColorFor(100).value) == "linear-gradient(to bottom right, #ffee9d, #d9a300)"
  {
    GradientRuleText("#ffee9d", "#d9a300");
    assert GradientHead + "#ffee9d" + StopSeparator + "#d9a300" + ")"
        == "linear-gradient(to bottom right, #ffee9d, #d9a300)";
  }
}
