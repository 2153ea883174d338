/**
 * The `image` container directive (src/directives/image.ts):
 * `:::image-tag ... :::` wraps its images in the HTML element `tag`; for
 * `figure` a `figcaption` is appended, taken from the directive's label or
 * from the leading image's alt text.
 */
module Image {
  import opened Basics
  import opened Props
  import opened Mdast
  import opened DirectiveRegex

  /**
   * The `image` options: props for the first image, for a figure, for its
   * caption, and for the element of any other tag.
   */
  datatype ImageOptions = ImageOptions(
    imgProps: PropSource,
    figureProps: PropSource,
    figcaptionProps: PropSource,
    elementProps: PropSource)

  const TextError := "Unexpected text directive. Use three colons (`:::`) for an `image` container directive."
  const LeafError := "Unexpected leaf directive. Use three colons (`:::`) for an `image` container directive."
  const InvalidTagError := "Invalid `image` directive. The directive failed to match a valid HTML tag. See https://github.com/lin-stephanie/remark-directive-sugar/blob/main/src/directives/image.ts#L20 for details."
  const MissingImageError := "Invalid `image` directive. The image is missing."
  const MissingCaptionError := "Invalid `image` directive. The figcaption text is missing. Specify it in the `[]` of `:::image-figure[]{}` or `![]()`."

  /** The tags an image directive may name. */
  const ValidTags: set<string> := {
    "figure", "a", "div", "span", "section", "article", "main",
    "aside", "header", "footer", "nav", "fieldset", "form"
  }

  /** The tag: the suffix of the name, which must be a valid tag. */
  function ImageTag(name: string, regex: Matcher): (r: Result<string>)
    ensures r.Ok? <==> MatchName(regex, name).Suffixed? && MatchName(regex, name).suffix in ValidTags
    ensures r.Ok? ==> r.value == MatchName(regex, name).suffix
    ensures !r.Ok? ==> r == Err(InvalidTagError)
  {
    match MatchName(regex, name)
    case Suffixed(t) => if t in ValidTags then Ok(t) else Err(InvalidTagError)
    case _ => Err(InvalidTagError)
  }

  // ---------------------------------------------------------------------------
  // The first image
  // ---------------------------------------------------------------------------

  /** The image nodes of a forest, in document (pre-)order. */
  function Images(nodes: seq<Node>): (imgs: seq<Node>)
    ensures forall i :: 0 <= i < |imgs| ==> imgs[i].Image?
    decreases nodes
  {
    if nodes == [] then []
    else
      var n := nodes[0];
      (if n.Image? then [n] else if HasChildren(n) then Images(n.children) else []) + Images(nodes[1..])
  }

  predicate HasImage(nodes: seq<Node>) {
    Images(nodes) != []
  }

  /** The images of one node: itself if it is one, else those of its children. */
  function ImagesOf(n: Node): seq<Node> {
    Images([n])
  }

  lemma ImagesCons(n: Node, rest: seq<Node>)
    ensures Images([n] + rest) == ImagesOf(n) + Images(rest)
    ensures ImagesOf(n) == if n.Image? then [n] else if HasChildren(n) then Images(n.children) else []
  {
    var own := if n.Image? then [n] else if HasChildren(n) then Images(n.children) else [];
    assert ([n] + rest)[0] == n && ([n] + rest)[1..] == rest;
    assert Images([n] + rest) == own + Images(rest);
    assert [n][1..] == [];
    assert Images([n]) == own + Images([]);
  }

  /** The images of a concatenation are those of each part, in order. */
  lemma {:induction false} ImagesAppend(a: seq<Node>, b: seq<Node>)
    ensures Images(a + b) == Images(a) + Images(b)
    decreases |a|
  {
    if a == [] {
      assert a + b == b;
    } else {
      var h, t := a[0], a[1..];
      ConsSplit(a, b);
      calc {
        Images(a + b);
        Images([h] + (t + b));
        { ImagesSplit(h, t + b); }
        ImagesOf(h) + Images(t + b);
        { ImagesAppend(t, b); }
        ImagesOf(h) + (Images(t) + Images(b));
        (ImagesOf(h) + Images(t)) + Images(b);
        { ImagesSplit(h, t); }
        Images([h] + t) + Images(b);
        Images(a) + Images(b);
      }
    }
  }

  lemma ImagesSplit(n: Node, rest: seq<Node>)
    ensures Images([n] + rest) == ImagesOf(n) + Images(rest)
  {
    ImagesCons(n, rest);
  }

  lemma ConsSplit<T>(a: seq<T>, b: seq<T>)
    requires a != []
    ensures a == [a[0]] + a[1..] && a + b == [a[0]] + (a[1..] + b)
  {
  }

  /**
   * The image as the visitor leaves it: with `imgProps`, its `hProperties`
   * (created when absent) get the props assigned over them.
   */
  function Touch(image: Node, imgProps: Option<Props>): (r: Node)
    requires image.Image?
    ensures r.Image? && r.url == image.url && r.alt == image.alt
  {
    match imgProps
    case None => image
    case Some(props) => Image(image.url, image.alt, image.data.(hProperties := Some(Assign(image.data.hProperties.GetOr([]), props))))
  }

  /**
   * `visit(node, 'image', …)` stopping at the first image with `EXIT`: the
   * forest with that image touched, and whether there was one.
   */
  function MarkFirstImage(nodes: seq<Node>, imgProps: Option<Props>): (r: (seq<Node>, bool))
    ensures r.1 <==> HasImage(nodes)
    ensures !r.1 ==> r.0 == nodes
    decreases nodes
  {
    if nodes == [] then ([], false)
    else
      var n := nodes[0];
      ImagesCons(n, nodes[1..]);
      assert nodes == [n] + nodes[1..];
      if n.Image? then
        ([Touch(n, imgProps)] + nodes[1..], true)
      else if HasChildren(n) && HasImage(n.children) then
        ([WithChildren(n, MarkFirstImage(n.children, imgProps).0)] + nodes[1..], true)
      else
        var (rest, found) := MarkFirstImage(nodes[1..], imgProps);
        ([n] + rest, found)
  }

  /** Marking touches the first image and no other: the images are otherwise those of the input. */
  lemma {:induction false} MarkedImages(nodes: seq<Node>, imgProps: Option<Props>)
    requires HasImage(nodes)
    ensures Images(MarkFirstImage(nodes, imgProps).0) == [Touch(Images(nodes)[0], imgProps)] + Images(nodes)[1..]
    decreases nodes
  {
    var n := nodes[0];
    var rest := nodes[1..];
    ImagesCons(n, rest);
    assert nodes == [n] + rest;
    if n.Image? {
      ImagesCons(Touch(n, imgProps), rest);
      HeadTail([n], Images(rest));
    } else if HasChildren(n) && HasImage(n.children) {
      MarkedImages(n.children, imgProps);
      MarkedChildImages(n, rest, MarkFirstImage(n.children, imgProps).0, imgProps);
    } else {
      MarkedImages(rest, imgProps);
      ImagesCons(n, MarkFirstImage(rest, imgProps).0);
    }
  }

  lemma MarkedChildImages(n: Node, rest: seq<Node>, kids: seq<Node>, imgProps: Option<Props>)
    requires HasChildren(n) && HasImage(n.children)
    requires Images(kids) == [Touch(Images(n.children)[0], imgProps)] + Images(n.children)[1..]
    ensures Images([WithChildren(n, kids)] + rest) == [Touch(Images([n] + rest)[0], imgProps)] + Images([n] + rest)[1..]
  {
    var w := WithChildren(n, kids);
    var c := Images(n.children);
    var all := Images([n] + rest);
    assert all == c + Images(rest) by {
      ImagesSplit(n, rest);
      ImagesOfParent(n);
    }
    calc {
      Images([w] + rest);
      { ImagesSplit(w, rest); ImagesOfParent(w); }
      Images(kids) + Images(rest);
      ([Touch(c[0], imgProps)] + c[1..]) + Images(rest);
      [Touch(c[0], imgProps)] + (c[1..] + Images(rest));
      { HeadTail(c, Images(rest)); }
      [Touch(all[0], imgProps)] + all[1..];
    }
  }

  /** A node with children holds the images of its children. */
  lemma ImagesOfParent(n: Node)
    requires HasChildren(n)
    ensures ImagesOf(n) == Images(n.children)
  {
    ImagesCons(n, []);
  }

  lemma HeadTail<T>(c: seq<T>, r: seq<T>)
    requires c != []
    ensures (c + r)[0] == c[0] && (c + r)[1..] == c[1..] + r
  {
  }

  // ---------------------------------------------------------------------------
  // Flattening paragraphs
  // ---------------------------------------------------------------------------

  /**
   * One step of the `reduce`: a paragraph whose first child is an image
   * gives all its children; reading the first child of an empty paragraph
   * fails.
   */
  function FlattenChild(child: Node): Result<seq<Node>> {
    if child.Paragraph? then
      if child.children == [] then TypeError
      else if child.children[0].Image? then Ok(child.children)
      else Ok([child])
    else Ok([child])
  }

  /** The children after the `reduce`, or its failure. */
  function Flatten(children: seq<Node>): Result<seq<Node>>
    decreases |children|
  {
    if children == [] then Ok([])
    else
      var front :- Flatten(children[..|children| - 1]);
      var last :- FlattenChild(children[|children| - 1]);
      Ok(front + last)
  }

  predicate EmptyParagraph(n: Node) {
    n.Paragraph? && n.children == []
  }

  /** The `reduce` fails exactly when a child is an empty paragraph. */
  lemma {:induction false} FlattenFailure(children: seq<Node>)
    ensures Flatten(children).Ok? <==> forall i :: 0 <= i < |children| ==> !EmptyParagraph(children[i])
    ensures !Flatten(children).Ok? ==> Flatten(children) == TypeError
    decreases |children|
  {
    if children != [] {
      var front := children[..|children| - 1];
      FlattenFailure(front);
      assert forall i :: 0 <= i < |front| ==> front[i] == children[i];
    }
  }

  /** A failure on a prefix is a failure of the whole. */
  lemma {:induction false} FlattenPrefixFails(children: seq<Node>, i: nat)
    requires i <= |children|
    requires !Flatten(children[..i]).Ok?
    ensures Flatten(children) == TypeError
    decreases |children| - i
  {
    FlattenFailure(children[..i]);
    FlattenFailure(children);
    assert forall j :: 0 <= j < i ==> children[..i][j] == children[j];
  }

  /** Flattening keeps every image, in order. */
  lemma {:induction false} FlattenImages(children: seq<Node>)
    requires Flatten(children).Ok?
    ensures Images(Flatten(children).value) == Images(children)
    decreases |children|
  {
    if children != [] {
      var front := children[..|children| - 1];
      var last := children[|children| - 1];
      FlattenImages(front);
      assert children == front + [last];
      ImagesAppend(front, [last]);
      ImagesAppend(Flatten(front).value, FlattenChild(last).value);
      ImagesCons(last, []);
      if last.Paragraph? && last.children[0].Image? {
        assert Images([last]) == Images(last.children) + Images([]);
      }
    }
  }

  /** Children with no paragraph to flatten are left as they are. */
  lemma {:induction false} FlattenIdentity(children: seq<Node>)
    requires forall i :: 0 <= i < |children| && children[i].Paragraph?
               ==> children[i].children != [] && !children[i].children[0].Image?
    ensures Flatten(children) == Ok(children)
    decreases |children|
  {
    if children != [] {
      var front := children[..|children| - 1];
      assert forall i :: 0 <= i < |front| ==> front[i] == children[i];
      FlattenIdentity(front);
      assert children == front + [children[|children| - 1]];
    }
  }

  // ---------------------------------------------------------------------------
  // The figure caption
  // ---------------------------------------------------------------------------

  /**
   * The caption: a leading label paragraph whose first child is text gives
   * its children and is taken out; else a leading image with alt text gives
   * that text; else there is none.
   */
  function Caption(children: seq<Node>): Result<CaptionSource> {
    if children == [] then TypeError
    else
      var first := children[0];
      if first.Paragraph? && first.data.directiveLabel && first.children == [] then TypeError
      else if first.Paragraph? && first.data.directiveLabel && first.children[0].Text? then
        Ok(CaptionSource(first.children, children[1..]))
      else if first.Image? && first.alt != "" then
        Ok(CaptionSource([Text(first.alt, EmptyData)], children))
      else Err(MissingCaptionError)
  }

  /** `props ? Object.assign(structuredClone(props), attributes) : attributes` */
  function AssignAttributes(props: Option<Props>, attributes: Attrs): Props {
    if props.Some? then Assign(props.value, attributes) else attributes
  }

  /** The `figcaption` paragraph appended to a figure. */
  function Figcaption(content: seq<Node>, figcaptionProps: Option<Props>, attributes: Attrs): Node {
    Paragraph(content, NodeData(Some("figcaption"), Some(AssignAttributes(figcaptionProps, attributes)), None, false))
  }

  // ---------------------------------------------------------------------------
  // The handler
  // ---------------------------------------------------------------------------

  /**
   * What `handleImageDirective` does to the node: whether it returns or
   * throws, and the children and `data` it leaves behind either way (the
   * first image is touched in place, and the figure's `data` is written,
   * before the last checks).
   */
  function ResolveImage(node: Node, options: ImageOptions, regex: Matcher): Run
    requires node.Directive?
  {
    if node.kind == TextDirective then Run(Err(TextError), node.children, node.data)
    else if node.kind == LeafDirective then Run(Err(LeafError), node.children, node.data)
    else
      var tag := ImageTag(node.name, regex);
      if !tag.Ok? then Run(Err(InvalidTagError), node.children, node.data)
      else
        var (marked, hasImage) := MarkFirstImage(node.children, CreateIfNeeded(options.imgProps, node));
        if !hasImage then Run(Err(MissingImageError), node.children, node.data)
        else
          var children := Flatten(marked);
          if !children.Ok? then Run(TypeError, marked, node.data)
          else ImageElement(Directive(node.kind, node.name, node.attributes, children.value, node.data), options, tag.value)
  }

  /** The element once the children are flattened: a figure with its caption, or the tag with its props. */
  function ImageElement(node: Node, options: ImageOptions, tag: string): Run
    requires node.Directive?
  {
    if tag == "figure" then
      var data := node.data.(hName := Some("figure"), hProperties := CreateIfNeeded(options.figureProps, node));
      var caption := Caption(node.children);
      if !caption.Ok? then Run(Outcome(caption), node.children, data)
      else
        var figcaption := Figcaption(caption.value.content, CreateIfNeeded(options.figcaptionProps, node), node.attributes);
        Run(Ok(()), caption.value.remaining + [figcaption], data)
    else
      var props := AssignAttributes(CreateIfNeeded(options.elementProps, node), node.attributes);
      Run(Ok(()), node.children, node.data.(hName := Some(tag), hProperties := Some(props)))
  }

  /**
   * `handleImageDirective(node, config, regex)`: checks the node and the tag,
   * gives the first image its props, flattens the paragraphs led by an image
   * and builds the figure or the element.
   */
  method HandleImageDirective(node: DirectiveNode, options: ImageOptions, regex: Matcher) returns (outcome: Result<()>)
    modifies node
    ensures outcome == ResolveImage(old(node.View()), options, regex).outcome
    ensures node.children == ResolveImage(old(node.View()), options, regex).children
    ensures node.data == ResolveImage(old(node.View()), options, regex).data
  {
    if node.kind == TextDirective {
      return Err(TextError);
    }
    if node.kind == LeafDirective {
      return Err(LeafError);
    }
    var m := MatchName(regex, node.name);
    if !(m.Suffixed? && m.suffix in ValidTags) {
      return Err(InvalidTagError);
    }
    var matchTag := m.suffix;

    var imgProps := CreateIfNeeded(options.imgProps, node.View());
    var marked, hasImage := MarkFirstImage(node.children, imgProps).0, MarkFirstImage(node.children, imgProps).1;
    if !hasImage {
      return Err(MissingImageError);
    }
    node.children := marked;

    var flat := FlattenChildren(marked);
    if !flat.Ok? {
      FlattenFailure(marked);
      return TypeError;
    }
    node.children := flat.value;
    outcome := BuildElement(node, options, matchTag);
  }

  /** The `reduce` over the children: a paragraph led by an image gives its children, any other child itself. */
  method FlattenChildren(marked: seq<Node>) returns (r: Result<seq<Node>>)
    ensures r == Flatten(marked)
  {
    var children: seq<Node> := [];
    for i := 0 to |marked|
      invariant Flatten(marked[..i]) == Ok(children)
    {
      var child := marked[i];
      assert marked[..i + 1][..i] == marked[..i] && marked[..i + 1][i] == child;
      if child.Paragraph? && child.children == [] {
        FlattenPrefixFails(marked, i + 1);
        return TypeError;
      }
      if child.Paragraph? && child.children[0].Image? {
        children := children + child.children;
      } else {
        children := children + [child];
      }
    }
    assert marked[..|marked|] == marked;
    return Ok(children);
  }

  /** The figure with its caption, or the element with its props, built on the flattened node. */
  method BuildElement(node: DirectiveNode, options: ImageOptions, matchTag: string) returns (outcome: Result<()>)
    modifies node
    ensures outcome == ImageElement(old(node.View()), options, matchTag).outcome
    ensures node.children == ImageElement(old(node.View()), options, matchTag).children
    ensures node.data == ImageElement(old(node.View()), options, matchTag).data
  {
    var flattened := node.View();
    var children := node.children;
    if matchTag == "figure" {
      var figureProps := CreateIfNeeded(options.figureProps, flattened);
      var figcaptionProps := CreateIfNeeded(options.figcaptionProps, flattened);
      node.data := node.data.(hName := Some("figure"), hProperties := figureProps);
      var content: seq<Node>;
      if children == [] {
        return TypeError;
      }
      if children[0].Paragraph? && children[0].data.directiveLabel && children[0].children == [] {
        return TypeError;
      }
      if children[0].Paragraph? && children[0].data.directiveLabel && children[0].children[0].Text? {
        content := children[0].children;
        node.children := children[1..];
      } else if children[0].Image? && children[0].alt != "" {
        content := [Text(children[0].alt, EmptyData)];
      } else {
        return Err(MissingCaptionError);
      }
      node.children := node.children + [Figcaption(content, figcaptionProps, node.attributes)];
    } else {
      var elementProps := CreateIfNeeded(options.elementProps, flattened);
      node.data := node.data.(hName := Some(matchTag), hProperties := Some(AssignAttributes(elementProps, node.attributes)));
    }
    return Ok(());
  }

  // ---------------------------------------------------------------------------
  // Properties of the handler
  // ---------------------------------------------------------------------------

  /** Only a container directive is accepted; the others are rejected before anything is written. */
  lemma ImageKindChecks(node: Node, options: ImageOptions, regex: Matcher)
    requires node.Directive?
    ensures node.kind == TextDirective ==> ResolveImage(node, options, regex) == Run(Err(TextError), node.children, node.data)
    ensures node.kind == LeafDirective ==> ResolveImage(node, options, regex) == Run(Err(LeafError), node.children, node.data)
    ensures node.kind == ContainerDirective && !ImageTag(node.name, regex).Ok? ==>
              ResolveImage(node, options, regex) == Run(Err(InvalidTagError), node.children, node.data)
  {
  }

  /** With a valid tag, the image is missing exactly when no image is anywhere under the directive. */
  lemma MissingImage(node: Node, options: ImageOptions, regex: Matcher)
    requires node.Directive? && node.kind == ContainerDirective && ImageTag(node.name, regex).Ok?
    ensures ResolveImage(node, options, regex).outcome == Err(MissingImageError) <==> !HasImage(node.children)
    ensures !HasImage(node.children) ==> ResolveImage(node, options, regex).children == node.children
  {
    if HasImage(node.children) {
      var marked := MarkFirstImage(node.children, CreateIfNeeded(options.imgProps, node)).0;
      var children := Flatten(marked);
      if children.Ok? {
        var flat := Directive(node.kind, node.name, node.attributes, children.value, node.data);
        ElementNotMissing(flat, options, ImageTag(node.name, regex).value);
      }
    }
  }

  lemma ElementNotMissing(node: Node, options: ImageOptions, tag: string)
    requires node.Directive?
    ensures ImageElement(node, options, tag).outcome != Err(MissingImageError)
  {
    if tag == "figure" {
      var caption := Caption(node.children);
      if !caption.Ok? {
        assert caption == TypeError || caption == Err(MissingCaptionError);
        assert |MissingCaptionError| != |MissingImageError|;
      }
    }
  }

  /**
   * An element other than a figure: the tag becomes `hName`, the props are
   * the element props (computed on the flattened node) with the directive's
   * attributes assigned over them, the children are the flattened ones, and
   * every image is kept in order with only the first one touched; the
   * flattening fails only on an empty paragraph.
   */
  lemma ElementOutput(node: Node, options: ImageOptions, regex: Matcher)
    requires node.Directive? && node.kind == ContainerDirective && HasImage(node.children)
    requires ImageTag(node.name, regex).Ok? && ImageTag(node.name, regex).value != "figure"
    ensures var run := ResolveImage(node, options, regex);
            var marked := MarkFirstImage(node.children, CreateIfNeeded(options.imgProps, node)).0;
            (run.outcome.Ok? <==> forall i :: 0 <= i < |marked| ==> !EmptyParagraph(marked[i])) &&
            (run.outcome.Ok? ==>
               var flat := Directive(node.kind, node.name, node.attributes, Flatten(marked).value, node.data);
               run.children == Flatten(marked).value &&
               run.data.hName == Some(ImageTag(node.name, regex).value) &&
               run.data.hProperties == Some(AssignAttributes(CreateIfNeeded(options.elementProps, flat), node.attributes)) &&
               Images(run.children) == [Touch(Images(node.children)[0], CreateIfNeeded(options.imgProps, node))] + Images(node.children)[1..] &&
               run.data.hProperties.Some? &&
               forall k :: HasKey(node.attributes, k) ==> Lookup(run.data.hProperties.value, k) == Lookup(node.attributes, k))
  {
    var imgProps := CreateIfNeeded(options.imgProps, node);
    var marked := MarkFirstImage(node.children, imgProps).0;
    var run := ResolveImage(node, options, regex);
    assert MarkFirstImage(node.children, imgProps).1;
    FlattenFailure(marked);
    if Flatten(marked).Ok? {
      var flat := Directive(node.kind, node.name, node.attributes, Flatten(marked).value, node.data);
      assert run == ImageElement(flat, options, ImageTag(node.name, regex).value);
      FlattenImages(marked);
      MarkedImages(node.children, imgProps);
    } else {
      assert run == Run(TypeError, marked, node.data);
    }
  }

  /**
   * A figure: `hName` is `figure` with the figure props, and a `figcaption`
   * paragraph carrying the directive's attributes over the caption props is
   * appended after the remaining children.
   */
  lemma FigureOutput(node: Node, options: ImageOptions)
    requires node.Directive?
    requires ImageElement(node, options, "figure").outcome.Ok?
    ensures var run := ImageElement(node, options, "figure");
            var caption := Caption(node.children).value;
            run.data.hName == Some("figure") &&
            run.data.hProperties == CreateIfNeeded(options.figureProps, node) &&
            |run.children| == |caption.remaining| + 1 &&
            run.children[..|caption.remaining|] == caption.remaining &&
            run.children[|caption.remaining|].data.hName == Some("figcaption") &&
            run.children[|caption.remaining|].children == caption.content &&
            run.children[|caption.remaining|].data.hProperties
              == Some(AssignAttributes(CreateIfNeeded(options.figcaptionProps, node), node.attributes)) &&
            forall k :: HasKey(node.attributes, k) ==>
              Lookup(run.children[|caption.remaining|].data.hProperties.value, k) == Lookup(node.attributes, k)
  {
    var caption := Caption(node.children).value;
    var run := ImageElement(node, options, "figure");
    assert run.children == caption.remaining + [Figcaption(caption.content, CreateIfNeeded(options.figcaptionProps, node), node.attributes)];
  }

  /**
   * The caption's sources in order: a label paragraph led by text is used
   * and removed; otherwise the alt text of a leading image is used and the
   * image stays; otherwise the caption is missing.
   */
  lemma CaptionOrder(children: seq<Node>)
    requires children != [] && !EmptyParagraph(children[0])
    ensures var first := children[0];
            var fromLabel := first.Paragraph? && first.data.directiveLabel && first.children[0].Text?;
            (fromLabel ==> Caption(children) == Ok(CaptionSource(first.children, children[1..]))) &&
            (!fromLabel && first.Image? && first.alt != "" ==> Caption(children) == Ok(CaptionSource([Text(first.alt, EmptyData)], children))) &&
            (!fromLabel && !(first.Image? && first.alt != "") ==> Caption(children) == Err(MissingCaptionError))
  {
  }

  /**
   * The usual figure, `:::image-figure` around one `![alt](url)`: its
   * paragraph is flattened away and the alt text becomes the caption; an
   * empty alt leaves the figure without one.
   */
  lemma FigureFromAlt(node: Node, options: ImageOptions, regex: Matcher, url: string, alt: string, imageData: NodeData, paragraphData: NodeData)
    requires node.Directive? && node.kind == ContainerDirective && ImageTag(node.name, regex) == Ok("figure")
    requires node.children == [Paragraph([Image(url, alt, imageData)], paragraphData)]
    ensures var run := ResolveImage(node, options, regex);
            var image := Touch(Image(url, alt, imageData), CreateIfNeeded(options.imgProps, node));
            (alt == "" ==> run.outcome == Err(MissingCaptionError) && run.children == [image]) &&
            (alt != "" ==> run.outcome.Ok? && |run.children| == 2 && run.children[0] == image &&
                           run.children[1].children == [Text(alt, EmptyData)])
  {
    var props := CreateIfNeeded(options.imgProps, node);
    var paragraph := Paragraph([Image(url, alt, imageData)], paragraphData);
    var image := Touch(Image(url, alt, imageData), props);
    ImagesCons(Image(url, alt, imageData), []);
    assert [Image(url, alt, imageData)] + [] == paragraph.children;
    assert HasImage(paragraph.children);
    assert MarkFirstImage(paragraph.children, props).0 == [image] + paragraph.children[1..];
    assert node.children[1..] == [] && node.children[0] == paragraph;
    assert [image] + paragraph.children[1..] == [image];
    assert WithChildren(paragraph, [image]) == Paragraph([image], paragraphData);
    var marked := MarkFirstImage(node.children, props).0;
    assert marked == [Paragraph([image], paragraphData)];
    assert marked[..0] == [];
    assert Flatten(marked) == Ok([] + [image]);
  }
}
