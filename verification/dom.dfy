/**
 * An abstract page: elements with a kind, the number their text content
 * parses to, and an inline style map; comment roots with the results of the
 * userscript's fixed structural queries; added nodes of a mutation batch.
 */
module Dom {
  import opened Wrappers

  type ElemId = nat

  /**
   * What `instanceof` can tell about an element: `HTMLParagraphElement`,
   * `HTMLSpanElement`, another `HTMLElement`, or an element that is not an
   * `HTMLElement` at all (an SVG element, say).
   */
  datatype Kind = Paragraph | Span | OtherHtml | NotHtml

  /** Paragraphs and spans are `HTMLElement`s too. */
  predicate IsHtml(k: Kind)
  {
    k != NotHtml
  }

  /**
   * One element of the page. `number` is `Number(textContent)`, with `None`
   * for NaN; `style` maps inline style property names to their values.
   */
  datatype Element = Element(kind: Kind, number: Option<int>, style: map<string, string>)

  type Document = map<ElemId, Element>

  /** The inline value of `prop` on element `id`, if one is set. */
  function StyleOf(doc: Document, id: ElemId, prop: string): Option<string>
  {
    if id in doc && prop in doc[id].style then Some(doc[id].style[prop]) else None
  }

  /** The kind of the element a query returned; `None` for a query that found nothing. */
  function KindOf(doc: Document, q: Option<ElemId>): Option<Kind>
  {
    if q.Some? && q.value in doc then Some(doc[q.value].kind) else None
  }

  /** Two pages with the same elements, kinds and text; only styles may differ. */
  predicate SameNodes(a: Document, b: Document)
  {
    && a.Keys == b.Keys
    && forall id :: id in a ==> id in b && b[id].kind == a[id].kind && b[id].number == a[id].number
  }

  /** `element.style[prop] = value`: one property of one element changes, nothing else. */
  function SetStyle(doc: Document, id: ElemId, prop: string, value: string): (doc': Document)
    requires id in doc
    ensures SameNodes(doc, doc')
    ensures StyleOf(doc', id, prop) == Some(value)
    ensures forall i, p :: (i != id || p != prop) ==> StyleOf(doc', i, p) == StyleOf(doc, i, p)
  {
    doc[id := doc[id].(style := doc[id].style[prop := value])]
  }

  /** Pages with the same elements and the same inline styles everywhere are the same page. */
  lemma SameStylesEqual(a: Document, b: Document)
    requires SameNodes(a, b)
    requires forall i, p :: StyleOf(a, i, p) == StyleOf(b, i, p)
    ensures a == b
  {
    forall id | id in a
      ensures a[id] == b[id]
    {
      forall p | p in a[id].style
        ensures p in b[id].style && a[id].style[p] == b[id].style[p]
      {
        assert StyleOf(a, id, p) == StyleOf(b, id, p);
      }
      forall p | p in b[id].style
        ensures p in a[id].style
      {
        assert StyleOf(a, id, p) == StyleOf(b, id, p);
      }
      assert a[id].style == b[id].style;
    }
  }

  /**
   * The results of the structural queries the userscript runs on a comment
   * root: `:scope > div > div > p` (body text), `:scope > div > button > p`
   * (nicoru count), `:scope > div > div > p > span` (timestamp) and
   * `:scope > div` (background container).
   */
  datatype Queries = Queries(
    text: Option<ElemId>,
    nicoru: Option<ElemId>,
    time: Option<ElemId>,
    background: Option<ElemId>)

  /** An element as the dispatcher sees it: its `data-index` marker and its parent element. */
  datatype Elem = Elem(hasIndex: bool, parent: Option<Elem>, queries: Queries)

  /** An added node: an element, or any other node (text, comment). */
  datatype Node = OtherNode | ElementNode(elem: Elem)

  /** A mutation record, reduced to the nodes it added. */
  datatype MutationRecord = MutationRecord(addedNodes: seq<Node>)
}
