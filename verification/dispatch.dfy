/**
 * The mutation callback: classification of every added node as a comment
 * root (the node itself, its parent, or nothing) and the renders that
 * follow, in delivery order.
 */
module Dispatch {
  import opened Wrappers
  import opened Dom
  import opened Render

  /** Only watch pages are decorated. */
  const WatchPrefix: string := "https://www.nicovideo.jp/watch/"

  predicate StartsWith(s: string, prefix: string)
  {
    |prefix| <= |s| && s[..|prefix|] == prefix
  }

  /**
   * The comment root an added node stands for on page `url`: the node when it
   * carries `data-index`, else its parent when that carries `data-index`.
   */
  function Classify(url: string, node: Node): (root: Option<Elem>)
    ensures root.Some? ==> node.ElementNode? && StartsWith(url, WatchPrefix) && root.value.hasIndex
    ensures root.Some? ==> root.value == node.elem || node.elem.parent == Some(root.value)
    ensures node.ElementNode? && StartsWith(url, WatchPrefix) && node.elem.hasIndex ==> root == Some(node.elem)
    ensures root.Some? && root.value != node.elem ==> !node.elem.hasIndex
    ensures node.ElementNode? && StartsWith(url, WatchPrefix) && root.None? ==>
              !node.elem.hasIndex && (node.elem.parent.None? || !node.elem.parent.value.hasIndex)
  {
    if !node.ElementNode? || !StartsWith(url, WatchPrefix) then None
    else if node.elem.hasIndex then Some(node.elem)
    else if node.elem.parent.Some? && node.elem.parent.value.hasIndex then node.elem.parent
    else None
  }

  function AsSeq(o: Option<Elem>): seq<Elem>
  {
    match o
    case None => []
    case Some(e) => [e]
  }

  /** The comment roots rendered for a sequence of added nodes, in order. */
  function Targets(url: string, nodes: seq<Node>): (roots: seq<Elem>)
    ensures |roots| <= |nodes|
    ensures forall i :: 0 <= i < |roots| ==> roots[i].hasIndex
    ensures !StartsWith(url, WatchPrefix) ==> roots == []
    decreases |nodes|
  {
    if |nodes| == 0 then []
    else AsSeq(Classify(url, nodes[0])) + Targets(url, nodes[1..])
  }

  /** Nodes of a batch, record by record, in delivery order. */
  function AddedNodes(records: seq<MutationRecord>): seq<Node>
    decreases |records|
  {
    if |records| == 0 then []
    else AddedNodes(records[..|records| - 1]) + records[|records| - 1].addedNodes
  }

  /** Renders the roots one after another. */
  function RenderAll(doc: Document, roots: seq<Elem>): (doc': Document)
    ensures SameNodes(doc, doc')
    decreases |roots|
  {
    if |roots| == 0 then doc
    else RenderAll(RenderComment(doc, roots[0]), roots[1..])
  }

  /** Each node is classified on its own: the roots of a concatenation are concatenated. */
  lemma {:induction false} TargetsAppend(url: string, a: seq<Node>, b: seq<Node>)
    ensures Targets(url, a + b) == Targets(url, a) + Targets(url, b)
    decreases |a|
  {
    if |a| == 0 {
      assert a + b == b;
    } else {
      assert (a + b)[0] == a[0];
      assert (a + b)[1..] == a[1..] + b;
      TargetsAppend(url, a[1..], b);
    }
  }

  /** Rendering a concatenation is rendering its halves in turn. */
  lemma {:induction false} RenderAllAppend(doc: Document, a: seq<Elem>, b: seq<Elem>)
    ensures RenderAll(doc, a + b) == RenderAll(RenderAll(doc, a), b)
    decreases |a|
  {
    if |a| == 0 {
      assert a + b == b;
    } else {
      assert (a + b)[0] == a[0];
      assert (a + b)[1..] == a[1..] + b;
      RenderAllAppend(RenderComment(doc, a[0]), a[1..], b);
    }
  }

  /** A root delivered twice in a row is rendered as if delivered once. */
  lemma RepeatedRootIsHarmless(doc: Document, root: Elem)
    ensures RenderAll(doc, [root, root]) == RenderAll(doc, [root])
  {
    RenderIdempotent(doc, root);
    assert [root, root][1..] == [root];
  }

  /** The handling of one added node: at most one render, of its comment root. */
  method HandleNode(doc: Document, url: string, node: Node) returns (doc': Document)
    ensures doc' == RenderAll(doc, Targets(url, [node]))
    ensures Classify(url, node).None? ==> doc' == doc
  {
    assert [node][1..] == [];
    assert Targets(url, [node]) == AsSeq(Classify(url, node));
    if !node.ElementNode? || !StartsWith(url, WatchPrefix) {
      return doc;
    }
    if node.elem.hasIndex {
      return RenderComment(doc, node.elem);
    }
    var parent := node.elem.parent;
    if parent.Some? && parent.value.hasIndex {
      return RenderComment(doc, parent.value);
    }
    return doc;
  }

  /** Rendering after more nodes extends the renders of the nodes before them. */
  lemma StepNodes(doc: Document, url: string, seen: seq<Node>, more: seq<Node>)
    ensures RenderAll(doc, Targets(url, seen + more))
         == RenderAll(RenderAll(doc, Targets(url, seen)), Targets(url, more))
  {
    TargetsAppend(url, seen, more);
    RenderAllAppend(doc, Targets(url, seen), Targets(url, more));
  }

  /** The inner loop: the added nodes of one record, in order. */
  method HandleRecord(doc: Document, url: string, record: MutationRecord) returns (doc': Document)
    ensures doc' == RenderAll(doc, Targets(url, record.addedNodes))
  {
    var nodes := record.addedNodes;
    doc' := doc;
    var j := 0;
    while j < |nodes|
      invariant 0 <= j <= |nodes|
      invariant doc' == RenderAll(doc, Targets(url, nodes[..j]))
    {
      StepNodes(doc, url, nodes[..j], [nodes[j]]);
      assert nodes[..j + 1] == nodes[..j] + [nodes[j]];
      doc' := HandleNode(doc', url, nodes[j]);
      j := j + 1;
    }
    assert nodes[..j] == nodes;
  }

  /**
   * The callback of the page's mutation observer: every added node of every
   * record, in delivery order, rendered through its comment root if it has
   * one.
   */
  method ObserverCallback(doc: Document, url: string, records: seq<MutationRecord>) returns (doc': Document)
    ensures doc' == RenderAll(doc, Targets(url, AddedNodes(records)))
    ensures SameNodes(doc, doc')
    ensures !StartsWith(url, WatchPrefix) ==> doc' == doc
  {
    doc' := doc;
    var i := 0;
    while i < |records|
      invariant 0 <= i <= |records|
      invariant doc' == RenderAll(doc, Targets(url, AddedNodes(records[..i])))
    {
      assert records[..i + 1][..i] == records[..i];
      assert AddedNodes(records[..i + 1]) == AddedNodes(records[..i]) + records[i].addedNodes;
      StepNodes(doc, url, AddedNodes(records[..i]), records[i].addedNodes);
      doc' := HandleRecord(doc', url, records[i]);
      i := i + 1;
    }
    assert records[..i] == records;
  }
}
