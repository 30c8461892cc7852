/**
 * The document tree the batch builder walks.  Parsing bytes into this tree
 * belongs to an external XML parser; only its shape is modelled: each node has
 * a node type, a name (which the parser could in principle leave null),
 * attributes and an ordered list of children.
 */
module Dom {
  import opened Wrappers

  /** The node types of the document model that matter here; every other kind of node is `OtherNode`. */
  datatype NodeType = ElementNode | TextNode | CommentNode | OtherNode

  datatype Node = Node(nodeType: NodeType, name: Option<string>, attributes: map<string, string>, children: seq<Node>)

  /** A parsed document; `root` is its document element. */
  datatype Document = Document(root: Node)

  predicate IsElement(n: Node) {
    n.nodeType == ElementNode
  }

  /** The element-typed nodes of `ns`, in their original order. */
  function Elements(ns: seq<Node>): (es: seq<Node>)
    ensures |es| <= |ns|
    ensures forall e :: e in es <==> e in ns && IsElement(e)
  {
    if ns == [] then []
    else if IsElement(ns[0]) then [ns[0]] + Elements(ns[1..])
    else Elements(ns[1..])
  }

  /** Filtering distributes over concatenation, so a non-element node anywhere contributes nothing. */
  lemma {:induction false} ElementsAppend(xs: seq<Node>, ys: seq<Node>)
    ensures Elements(xs + ys) == Elements(xs) + Elements(ys)
  {
    if xs != [] {
      assert (xs + ys)[1..] == xs[1..] + ys;
      ElementsAppend(xs[1..], ys);
    } else {
      assert xs + ys == ys;
    }
  }
}
