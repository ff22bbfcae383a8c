# expand-nicoru: the comment-decoration engine, in Dafny

The userscript `expand-nicoru` recolours comments on Niconico watch pages by
the number of "nicoru" reactions each comment has received. This project
models its decoration engine, `src/expand-nicoru.user.js`, as pure functions
over an abstract page:

- **Tables** (`tables.dfy`, module `NicoruTables`): the descending threshold
  list `[300, 200, 100, 50, 30, 15]` and the colour rule of each tier. Each
  rule is a flat colour or a two-stop gradient.
- **Tier resolution** (`tier.dfy`, module `Tier`): the first threshold the
  parsed count reaches. This is shown to be the greatest threshold not above
  the count. A NaN count, written `None`, reaches nothing.
- **Background text** (`css.dfy`, module `Css`): the exact
  `linear-gradient(to bottom right, <primary>, <secondary>)` string or the
  flat colour. A parser reads such a value back, which shows both stops are
  present and in order.
- **Page** (`dom.dfy`, module `Dom`): elements with a kind (paragraph, span,
  other HTML element, non-HTML element), the parsed number of their text, and
  an inline style map. A comment root carries its `data-index` marker, its
  parent, and the results of the four structural queries.
- **Decoration** (`render.dfy`, module `Render`): all-or-nothing extraction,
  then the skip checks in source order, then the five style writes. Every
  check precedes every write, so a comment is either fully decorated or left
  exactly as it was. Rendering is idempotent. Two comments that share no
  element can be rendered in either order.
- **Dispatch** (`dispatch.dfy`, module `Dispatch`): the mutation callback.
  Each added node is classified as itself, its parent, or nothing. The
  resulting roots are rendered in delivery order, at most one per node.

The code has no configuration toggles. The 300 and 200 tiers are always
active, and the 16px body font size is always applied.

## Model

| member | source | states |
|---|---|---|
| NicoruTables.NicoruCounts | src/expand-nicoru.user.js:19 | the threshold list is strictly descending and positive, and 15 is its least entry |
| NicoruTables.ColorFor | src/expand-nicoru.user.js:21-53 | a colour rule exists exactly for the thresholds of the list; every gradient rule has a non-empty secondary colour; every primary, and every secondary a gradient uses, is a `#rrggbb` literal |
| NicoruTables.FillOf | src/expand-nicoru.user.js:137-141 | a rule fills with a gradient exactly when `isGradient`, the primary as first stop and the secondary as second; a flat rule fills with exactly its primary colour; a rule with hex colours gives a well-formed fill |
| NicoruTables.BackgroundValue | src/expand-nicoru.user.js:137-141 | the text written for a rule with hex colours reads back as the rule's fill; `TableBackgroundFormat` states the exact text for every table rule |
| NicoruTables.GradientRuleText | src/expand-nicoru.user.js:138 | a gradient rule's text is the gradient head, the primary, `, `, the secondary and `)` |
| NicoruTables.TableBackgroundFormat | src/expand-nicoru.user.js:137-141 | for every table rule the background is exactly `linear-gradient(to bottom right, primary, secondary)` when it is a gradient, or the primary colour otherwise, and it parses back to the rule's fill |
| Tier.FirstReachedIndex | src/expand-nicoru.user.js:115-119 | the index found is the first threshold the count reaches: none before it is reached |
| Tier.ResolveTier | src/expand-nicoru.user.js:115-120 | a resolved tier is a threshold of the list that the count reaches; there is no tier exactly when no threshold is reached |
| Tier.FloorMatch | src/expand-nicoru.user.js:115-119 | on a strictly descending list the resolved tier is the greatest threshold not above the count |
| Tier.FindTier | src/expand-nicoru.user.js:115-119 | the early-return loop over the thresholds returns the same tier as the first-reached definition |
| Tier.NicoruTier | src/expand-nicoru.user.js:115-120 | with the fixed list: no tier iff the count is NaN or below 15; otherwise 300, 200, 100, 50, 30 or 15 by band |
| Css.CssBackground | src/expand-nicoru.user.js:137-141 | the background text of a well-formed flat or gradient fill (the template literal at line 138, the bare primary at line 140) reads back as that fill, primary stop first |
| Css.GradientTextParses | src/expand-nicoru.user.js:138 | the gradient text of two `#rrggbb` stops splits back into those two stops, in order |
| Css.CssOfParse | src/expand-nicoru.user.js:137-141 | every string the background reader accepts is exactly the text of the fill it returns |
| Css.CssInjective | src/expand-nicoru.user.js:137-141 | two well-formed fills with the same background text are the same fill |
| Dom.SetStyle | src/expand-nicoru.user.js:129 | a style assignment sets one property of one element and changes nothing else |
| Render.GetCommentContent | src/expand-nicoru.user.js:147-160 | extraction succeeds iff body and nicoru lookups are paragraphs and the time lookup is a span; the timestamp is then a different element from both paragraphs and the count is the nicoru element's number |
| Render.HasHtmlBackground | src/expand-nicoru.user.js:122-123 | the background query found an element of the page that is an `HTMLElement`; `PlanDecoration` states that failing this skips the comment with no write |
| Render.PlanDecoration | src/expand-nicoru.user.js:104-126 | skips for a shape mismatch, for no tier, or for a non-HTML or missing background, in that order; never skips for a missing colour rule; on success the rule is the tier's table rule |
| Render.Apply | src/expand-nicoru.user.js:128-141 | the writes leave nicoru and body text black, the timestamp dimgray, the body at 16px, the background at the rule's value, and every other property of every element unchanged |
| Render.RenderComment | src/expand-nicoru.user.js:104-142 | a skipped comment leaves the page identical; a decorated one is fully decorated; elements, kinds and text never change |
| Render.PlanIgnoresStyles | src/expand-nicoru.user.js:104-126 | the skip checks read kinds and text only, never styles |
| Render.DecoratedTwice | src/expand-nicoru.user.js:128-141 | applying the same decoration to an already decorated page changes nothing |
| Render.RenderIdempotent | src/expand-nicoru.user.js:104-141 | rendering a comment twice gives the page that rendering it once gives |
| Render.BelowLowestTierUntouched | src/expand-nicoru.user.js:115-120 | a comment whose count is NaN or below 15 is left untouched even when its shape matches |
| Render.RenderedBackground | src/expand-nicoru.user.js:136-141 | after a decoration the background is the exact gradient text (primary before secondary, secondary non-empty) or the flat primary, and parses back to the tier's fill |
| NicoruTables.HundredTierBackground | src/expand-nicoru.user.js:38-42 | the 100 tier rule is the `#ffee9d` to `#d9a300` gradient and its background text is exactly `linear-gradient(to bottom right, #ffee9d, #d9a300)` |
| Render.HundredTierScenario | src/expand-nicoru.user.js:129-141 | a count of 120 gives black/black/dimgray text, 16px body text and the `#ffee9d` to `#d9a300` gradient |
| Render.DecoratedCommute | src/expand-nicoru.user.js:128-141 | two decorations writing to disjoint elements reach the same page in either order |
| Render.RenderCommutes | src/expand-nicoru.user.js:104-141 | comment roots that share no decorated element may be rendered in either order |
| Dispatch.Classify | src/expand-nicoru.user.js:71-92 | non-elements and pages outside the watch prefix give no root; a marked node is its own root; otherwise a marked parent is the root; a root always carries the marker |
| Dispatch.Targets | src/expand-nicoru.user.js:69-93 | at most one root per added node, every root marked, none outside the watch pages |
| Dispatch.RenderAll | src/expand-nicoru.user.js:69-93 | rendering a sequence of roots never changes which elements exist, their kinds or their text |
| Dispatch.TargetsAppend | src/expand-nicoru.user.js:69-93 | the roots of a concatenation of node lists are the concatenation of their roots, so delivery order is kept |
| Dispatch.RenderAllAppend | src/expand-nicoru.user.js:69-93 | rendering a concatenation of roots is rendering the first part and then the second |
| Dispatch.RepeatedRootIsHarmless | src/expand-nicoru.user.js:79-91 | a root delivered twice in a row leaves the page as one delivery does |
| Dispatch.HandleNode | src/expand-nicoru.user.js:71-92 | one added node causes exactly the render of its classified root, or none |
| Dispatch.StepNodes | src/expand-nicoru.user.js:69-93 | handling more nodes extends the renders of the nodes already handled |
| Dispatch.HandleRecord | src/expand-nicoru.user.js:70-93 | the inner loop over one record's added nodes renders their classified roots in order |
| Dispatch.ObserverCallback | src/expand-nicoru.user.js:68-95 | the nested loops over records and added nodes render the classified roots in delivery order; off the watch pages the page is unchanged |

## Left out

- Observer construction and subscription to `document.body` (src/expand-nicoru.user.js:59-63): browser event plumbing; the callback is modelled over a sequence of mutation records instead.
- Selector matching and `instanceof`: each `querySelector` result is given as an optional element id, and each element has one of four kinds.
- `Number()` on the nicoru text: each element carries the integer its text parses to, or `None` for NaN. Fractional and infinite counts are not modelled.
- The `text` and `time` fields that extraction returns (src/expand-nicoru.user.js:162-172): nothing reads them.
- CSS semantics of the `background` shorthand (which also resets the background longhands): the style map records only the assigned property.
- `location.href` is passed in as a parameter, not read from the browser.
- The userscript metadata header and `eslint.config.js`: no runtime logic.
- Configuration toggles and menu commands: the code has none, so the threshold list and the 16px font size are fixed.
