/**
 * Decoration of one comment root: extraction of its sub-elements, the checks
 * that may skip it, and the style writes, all of which happen only after
 * every check has passed.
 */
module Render {
  import opened Wrappers
  import opened Css
  import opened NicoruTables
  import opened Tier
  import opened Dom

  const TextColor: string := "black"
  const TimeColor: string := "dimgray"
  const BodyFontSize: string := "16px"

  /** The located body text, nicoru count and timestamp elements, and the parsed count. */
  datatype Content = Content(text: ElemId, nicoru: ElemId, time: ElemId, count: Option<int>)

  /**
   * All-or-nothing extraction: a result exists only when the body lookup is a
   * paragraph, the nicoru lookup is a paragraph and the timestamp lookup is a
   * span.
   */
  function GetCommentContent(doc: Document, q: Queries): (c: Option<Content>)
    ensures c.Some? <==>
              && KindOf(doc, q.text) == Some(Paragraph)
              && KindOf(doc, q.nicoru) == Some(Paragraph)
              && KindOf(doc, q.time) == Some(Span)
    ensures c.Some? ==> q.text == Some(c.value.text) && q.nicoru == Some(c.value.nicoru) && q.time == Some(c.value.time)
    ensures c.Some? ==> c.value.time != c.value.text && c.value.time != c.value.nicoru
    ensures c.Some? ==> c.value.nicoru in doc && c.value.count == doc[c.value.nicoru].number
  {
    if && KindOf(doc, q.text) == Some(Paragraph)
       && KindOf(doc, q.nicoru) == Some(Paragraph)
       && KindOf(doc, q.time) == Some(Span)
    then Some(Content(q.text.value, q.nicoru.value, q.time.value, doc[q.nicoru.value].number))
    else None
  }

  /** Why a comment was left undecorated, in the order the checks run. */
  datatype SkipReason = ShapeMismatch | BelowThreshold | NoBackground | NoColor

  /** Everything the style writes need, gathered before the first write. */
  datatype Decoration = Decoration(content: Content, background: ElemId, rule: ColorRule)

  /** The elements a decoration writes to exist, and the timestamp is neither paragraph. */
  predicate ValidFor(doc: Document, d: Decoration)
  {
    && d.content.text in doc && d.content.nicoru in doc && d.content.time in doc
    && d.background in doc
    && d.content.time != d.content.text && d.content.time != d.content.nicoru
  }

  /**
   * The background container query returned an `HTMLElement`: it found an
   * element of the page, of any kind but a non-HTML one.
   */
  function HasHtmlBackground(doc: Document, q: Queries): (b: bool)
    ensures b <==> q.background.Some? && q.background.value in doc && doc[q.background.value].kind in {Paragraph, Span, OtherHtml}
  {
    KindOf(doc, q.background).Some? && IsHtml(KindOf(doc, q.background).value)
  }

  /** The (element, property) pairs a decoration assigns. */
  predicate Written(d: Decoration, i: ElemId, p: string)
  {
    || (p == "color" && (i == d.content.nicoru || i == d.content.text || i == d.content.time))
    || (p == "fontSize" && i == d.content.text)
    || (p == "background" && i == d.background)
  }

  /**
   * Every check of the decoration, in source order, with no write: the
   * content must be extracted, the count must reach a tier, the background
   * container must be an `HTMLElement` and the tier must have a colour rule.
   */
  function PlanDecoration(doc: Document, root: Elem): (p: Result<Decoration, SkipReason>)
    ensures p == Failure(ShapeMismatch) <==> GetCommentContent(doc, root.queries).None?
    ensures p == Failure(BelowThreshold) <==>
              GetCommentContent(doc, root.queries).Some?
              && NicoruTier(GetCommentContent(doc, root.queries).value.count).None?
    ensures p == Failure(NoBackground) <==>
              GetCommentContent(doc, root.queries).Some?
              && NicoruTier(GetCommentContent(doc, root.queries).value.count).Some?
              && !HasHtmlBackground(doc, root.queries)
    ensures p != Failure(NoColor)
    ensures p.Success? ==> ValidFor(doc, p.value)
    ensures p.Success? ==> Some(p.value.background) == root.queries.background
    ensures p.Success? ==> Some(p.value.content) == GetCommentContent(doc, root.queries)
    ensures p.Success? ==>
              && NicoruTier(p.value.content.count).Some?
              && ColorFor(NicoruTier(p.value.content.count).value) == Some(p.value.rule)
  {
    match GetCommentContent(doc, root.queries)
    case None => Failure(ShapeMismatch)
    case Some(content) =>
      match NicoruTier(content.count)
      case None => Failure(BelowThreshold)
      case Some(id) =>
        if !HasHtmlBackground(doc, root.queries) then Failure(NoBackground)
        else
          match ColorFor(id)
          case None => Failure(NoColor)
          case Some(rule) => Success(Decoration(content, root.queries.background.value, rule))
  }

  /**
   * The final state after a decoration: fixed text colours, the enlarged
   * body text, the rule's background, and every other property of every
   * element as it was.
   */
  ghost predicate Decorated(before: Document, after: Document, d: Decoration)
  {
    && StyleOf(after, d.content.nicoru, "color") == Some(TextColor)
    && StyleOf(after, d.content.text, "color") == Some(TextColor)
    && StyleOf(after, d.content.time, "color") == Some(TimeColor)
    && StyleOf(after, d.content.text, "fontSize") == Some(BodyFontSize)
    && StyleOf(after, d.background, "background") == Some(BackgroundValue(d.rule))
    && forall i, p :: !Written(d, i, p) ==> StyleOf(after, i, p) == StyleOf(before, i, p)
  }

  /** The style writes, in the userscript's order. */
  function Apply(doc: Document, d: Decoration): (doc': Document)
    requires ValidFor(doc, d)
    ensures SameNodes(doc, doc')
    ensures Decorated(doc, doc', d)
  {
    var doc1 := SetStyle(doc, d.content.nicoru, "color", TextColor);
    var doc2 := SetStyle(doc1, d.content.text, "color", TextColor);
    var doc3 := SetStyle(doc2, d.content.time, "color", TimeColor);
    var doc4 := SetStyle(doc3, d.content.text, "fontSize", BodyFontSize);
    SetStyle(doc4, d.background, "background", BackgroundValue(d.rule))
  }

  /** Decorates a comment root, or leaves the page exactly as it was. */
  function RenderComment(doc: Document, root: Elem): (doc': Document)
    ensures SameNodes(doc, doc')
    ensures PlanDecoration(doc, root).Failure? ==> doc' == doc
    ensures PlanDecoration(doc, root).Success? ==> Decorated(doc, doc', PlanDecoration(doc, root).value)
  {
    match PlanDecoration(doc, root)
    case Failure(_) => doc
    case Success(d) => Apply(doc, d)
  }

  /** The checks read only kinds and text, never styles. */
  lemma PlanIgnoresStyles(a: Document, b: Document, root: Elem)
    requires SameNodes(a, b)
    ensures PlanDecoration(a, root) == PlanDecoration(b, root)
  {
  }

  /** A second application of the same decoration changes nothing. */
  lemma DecoratedTwice(doc: Document, once: Document, twice: Document, d: Decoration)
    requires Decorated(doc, once, d) && Decorated(once, twice, d)
    requires SameNodes(once, twice)
    ensures twice == once
  {
    forall i, p
      ensures StyleOf(once, i, p) == StyleOf(twice, i, p)
    {
      if !Written(d, i, p) {
      }
    }
    SameStylesEqual(once, twice);
  }

  /** Rendering a comment twice leaves the same page as rendering it once. */
  lemma RenderIdempotent(doc: Document, root: Elem)
    ensures RenderComment(RenderComment(doc, root), root) == RenderComment(doc, root)
  {
    var once := RenderComment(doc, root);
    PlanIgnoresStyles(doc, once, root);
    var p := PlanDecoration(doc, root);
    if p.Success? {
      DecoratedTwice(doc, once, RenderComment(once, root), p.value);
    }
  }

  /**
   * A comment whose count is NaN or below the lowest threshold is left
   * untouched, even when its shape matches.
   */
  lemma BelowLowestTierUntouched(doc: Document, root: Elem)
    requires GetCommentContent(doc, root.queries).Some?
    requires var cnt := GetCommentContent(doc, root.queries).value.count; cnt.None? || cnt.value < 15
    ensures RenderComment(doc, root) == doc
  {
  }

  /**
   * On success the background written is the exact gradient text with the
   * primary stop first, or the flat primary colour, and it reads back as the
   * tier's fill.
   */
  lemma RenderedBackground(doc: Document, root: Elem)
    requires PlanDecoration(doc, root).Success?
    ensures var d := PlanDecoration(doc, root).value;
            var bg := StyleOf(RenderComment(doc, root), d.background, "background");
            && (d.rule.isGradient ==>
                  bg == Some("linear-gradient(to bottom right, " + d.rule.primary + ", " + d.rule.secondary + ")"))
            && (d.rule.isGradient ==> d.rule.secondary != "")
            && (!d.rule.isGradient ==> bg == Some(d.rule.primary))
            && bg.Some? && ParseCssBackground(bg.value) == Some(FillOf(d.rule))
  {
    var d := PlanDecoration(doc, root).value;
    TableBackgroundFormat(NicoruTier(d.content.count).value);
  }

  /**
   * A comment with 120 nicorus falls in the 100 tier: black nicoru and body
   * text, dimgray timestamp, 16px body text, and the yellow gradient.
   */
  lemma HundredTierScenario(doc: Document, root: Elem)
    requires GetCommentContent(doc, root.queries).Some?
    requires GetCommentContent(doc, root.queries).value.count == Some(120)
    requires HasHtmlBackground(doc, root.queries)
    ensures var after := RenderComment(doc, root);
            var c := GetCommentContent(doc, root.queries).value;
            && StyleOf(after, c.nicoru, "color") == Some("black")
            && StyleOf(after, c.text, "color") == Some("black")
            && StyleOf(after, c.time, "color") == Some("dimgray")
            && StyleOf(after, c.text, "fontSize") == Some("16px")
            && StyleOf(after, root.queries.background.value, "background")
               == Some("linear-gradient(to bottom right, #ffee9d, #d9a300)")
  {
    var p := PlanDecoration(doc, root);
    assert NicoruTier(Some(120)) == Some(100);
    assert p.Success?;
    var d := p.value;
    assert d.rule == ColorFor(100).value;
    assert BackgroundValue(d.rule) == "linear-gradient(to bottom right, #ffee9d, #d9a300)" by {
      HundredTierBackground();
    }
    assert Decorated(doc, RenderComment(doc, root), d);
  }

  /** The elements a decoration touches. */
  function Touched(d: Decoration): set<ElemId>
  {
    {d.content.text, d.content.nicoru, d.content.time, d.background}
  }

  /** Two roots whose decorations touch disjoint elements. */
  predicate Independent(doc: Document, r1: Elem, r2: Elem)
  {
    PlanDecoration(doc, r1).Success? && PlanDecoration(doc, r2).Success? ==>
      Touched(PlanDecoration(doc, r1).value) !! Touched(PlanDecoration(doc, r2).value)
  }

  /** Two decorations on disjoint elements reach the same page in either order. */
  lemma DecoratedCommute(doc: Document, a1: Document, a: Document, b1: Document, b: Document,
                         d1: Decoration, d2: Decoration)
    requires Decorated(doc, a1, d1) && Decorated(a1, a, d2)
    requires Decorated(doc, b1, d2) && Decorated(b1, b, d1)
    requires Touched(d1) !! Touched(d2)
    requires SameNodes(a, b)
    ensures a == b
  {
    forall i, p
      ensures StyleOf(a, i, p) == StyleOf(b, i, p)
    {
      if Written(d1, i, p) {
        assert i in Touched(d1);
        assert !Written(d2, i, p);
      } else if Written(d2, i, p) {
        assert i in Touched(d2);
      }
    }
    SameStylesEqual(a, b);
  }

  /** Comment roots that share no element can be decorated in either order. */
  lemma RenderCommutes(doc: Document, r1: Elem, r2: Elem)
    requires Independent(doc, r1, r2)
    ensures RenderComment(RenderComment(doc, r1), r2) == RenderComment(RenderComment(doc, r2), r1)
  {
    var a1 := RenderComment(doc, r1);
    var b1 := RenderComment(doc, r2);
    PlanIgnoresStyles(doc, a1, r2);
    PlanIgnoresStyles(doc, b1, r1);
    var p1 := PlanDecoration(doc, r1);
    var p2 := PlanDecoration(doc, r2);
    if p1.Success? && p2.Success? {
      DecoratedCommute(doc, a1, RenderComment(a1, r2), b1, RenderComment(b1, r1), p1.value, p2.value);
    }
  }
}
