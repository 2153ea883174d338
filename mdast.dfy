/**
 * The syntax tree the plugin rewrites: mdast nodes with the directive nodes
 * of mdast-util-directive, the `data` fields (`hName`, `hProperties`,
 * `hChildren`) that tell mdast-util-to-hast what to render, and the hast
 * nodes written into `hChildren`.
 */
module Mdast {
  import opened Basics
  import opened Props

  /** The three directive node types: `:::name`, `::name` and `:name`. */
  datatype Kind = ContainerDirective | LeafDirective | TextDirective

  /** A hast node written into `data.hChildren`. */
  datatype Hast =
    | HText(value: string)
    | HElement(tagName: string, properties: Props, children: seq<Hast>)

  /**
   * A node's `data`: the rendering instructions, and the `directiveLabel`
   * flag remark-directive sets on the paragraph holding a container's label.
   * An absent `data` object and an empty one are the same value here.
   */
  datatype NodeData = NodeData(
    hName: Option<string>,
    hProperties: Option<Props>,
    hChildren: Option<seq<Hast>>,
    directiveLabel: bool)

  const EmptyData := NodeData(None, None, None, false)

  /**
   * An mdast node. Text, images, paragraphs and directives are the node types
   * the plugin inspects; every other node is a `Parent` (with children) or a
   * `Literal` (without), known only by its type name.
   */
  datatype Node =
    | Text(value: string, data: NodeData)
    | Image(url: string, alt: string, data: NodeData)
    | Paragraph(children: seq<Node>, data: NodeData)
    | Directive(kind: Kind, name: string, attributes: Attrs, children: seq<Node>, data: NodeData)
    | Parent(nodeType: string, children: seq<Node>, data: NodeData)
    | Literal(nodeType: string, data: NodeData)

  /** The node types that have children: `children` is shared by their constructors. */
  predicate HasChildren(n: Node) {
    n.Paragraph? || n.Directive? || n.Parent?
  }

  /** The node with its children replaced; everything else is kept. */
  function WithChildren(n: Node, kids: seq<Node>): (r: Node)
    requires HasChildren(n)
    ensures HasChildren(r) && r.children == kids && r.data == n.data
    ensures r.Paragraph? == n.Paragraph? && r.Directive? == n.Directive? && r.Parent? == n.Parent?
  {
    match n
    case Paragraph(_, d) => Paragraph(kids, d)
    case Directive(k, nm, a, _, d) => Directive(k, nm, a, kids, d)
    case Parent(t, _, d) => Parent(t, kids, d)
  }

  /**
   * `children.length > 0 && children[0].type === 'text' ? children[0].value : undefined`:
   * the label text of a text or leaf directive.
   */
  function LeadingText(children: seq<Node>): (t: Option<string>)
    ensures t.Some? <==> |children| > 0 && children[0].Text?
    ensures t.Some? ==> t.value == children[0].value
  {
    if |children| > 0 && children[0].Text? then Some(children[0].value) else None
  }

  /**
   * What a handler does to a directive: whether it returns or throws, and the
   * children and `data` it leaves behind either way.
   */
  datatype Run = Run(outcome: Result<()>, children: seq<Node>, data: NodeData)

  /** A figure caption: its content, and the children left once it is taken. */
  datatype CaptionSource = CaptionSource(content: seq<Node>, remaining: seq<Node>)

  // ---------------------------------------------------------------------------
  // Props given as values or as functions of the node
  // ---------------------------------------------------------------------------

  /** An option that is `null`/`undefined`, a property object, or a function from the node to one. */
  datatype PropSource =
    | NoProps
    | FixedProps(props: Props)
    | ComputedProps(compute: Node -> Option<Props>)

  /**
   * `createIfNeeded(value, node)` (src/utils.ts, and its copy in
   * src/directives/image.ts): a function is called with the node, anything
   * else is returned as it is.
   */
  function CreateIfNeeded(value: PropSource, node: Node): (r: Option<Props>)
    ensures value.NoProps? ==> r.None?
    ensures value.FixedProps? ==> r == Some(value.props)
    ensures value.ComputedProps? ==> r == value.compute(node)
  {
    match value
    case NoProps => None
    case FixedProps(p) => Some(p)
    case ComputedProps(f) => f(node)
  }

  /** A value that is not a function does not depend on the node it is given. */
  lemma CreateIfNeededIgnoresNode(value: PropSource, a: Node, b: Node)
    requires !value.ComputedProps?
    ensures CreateIfNeeded(value, a) == CreateIfNeeded(value, b)
  {
    match value
    case NoProps =>
    case FixedProps(_) =>
  }

  // ---------------------------------------------------------------------------
  // The directive node a handler rewrites in place
  // ---------------------------------------------------------------------------

  /**
   * A directive node as the handlers see it: its type, name and attributes
   * are read; its `children` and `data` are rewritten.
   */
  class DirectiveNode {
    const kind: Kind
    const name: string
    const attributes: Attrs
    var children: seq<Node>
    var data: NodeData

    constructor (kind: Kind, name: string, attributes: Attrs, children: seq<Node>, data: NodeData)
      ensures this.kind == kind && this.name == name && this.attributes == attributes
      ensures this.children == children && this.data == data
    {
      this.kind := kind;
      this.name := name;
      this.attributes := attributes;
      this.children := children;
      this.data := data;
    }

    /** The node as the tree value passed to functions in the options. */
    function View(): Node
      reads this
    {
      Directive(kind, name, attributes, children, data)
    }
  }
}
