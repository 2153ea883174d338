/**
 * What the older transformer of src/index.ts promises: the order in which
 * a directive's name selects its branch, the checks each branch makes and
 * the values it resolves, and that the walk leaves a tree without
 * directives as it is.
 */
module LegacyProperties {
  import opened Basics
  import opened Strings
  import opened Props
  import opened Mdast
  import opened Legacy

  // ---------------------------------------------------------------------------
  // Dispatch: the first matching branch, whatever the name also looks like
  // ---------------------------------------------------------------------------

  /** A name the image pattern matches is an image directive, even `video`, `link` or `badge`. */
  lemma DispatchImage(node: Node, cfg: LegacyConfig)
    requires node.Directive? && cfg.imageTag(node.name).Some?
    ensures node.kind == TextDirective ==> Visit(node, cfg).outcome == Err(ImageTextError)
    ensures node.kind == LeafDirective ==> Visit(node, cfg).outcome == Err(ImageLeafError)
    ensures Visit(node, cfg).outcome.Ok? ==>
              Visit(node, cfg).data.hName == Some("figure") || Visit(node, cfg).data.hName == Some("a")
              || Visit(node, cfg).data.hName.value in cfg.validTagsForImg
  {
  }

  /** `video`, when the image pattern does not take it: only a leaf directive, rendered in a `div`. */
  lemma DispatchVideo(node: Node, cfg: LegacyConfig)
    requires node.Directive? && cfg.imageTag(node.name).None? && node.name == "video"
    ensures node.kind == TextDirective ==> Visit(node, cfg).outcome == Err(VideoTextError)
    ensures node.kind == ContainerDirective ==> Visit(node, cfg).outcome == Err(VideoContainerError)
    ensures Visit(node, cfg).outcome.Ok? ==> Visit(node, cfg).data.hName == Some("div")
  {
  }

  /** `link`: only a text directive, rendered as an anchor or a `span`, or left as it is. */
  lemma DispatchLink(node: Node, cfg: LegacyConfig)
    requires node.Directive? && cfg.imageTag(node.name).None? && node.name == "link"
    ensures node.kind == LeafDirective ==> Visit(node, cfg).outcome == Err(LinkLeafError)
    ensures node.kind == ContainerDirective ==> Visit(node, cfg).outcome == Err(LinkContainerError)
    ensures Visit(node, cfg).outcome.Ok? ==>
              Visit(node, cfg).data.hName == Some("a") || Visit(node, cfg).data.hName == Some("span")
              || Visit(node, cfg).data == node.data
  {
  }

  /** `badge`: only a text directive, rendered as a `span`. */
  lemma DispatchBadge(node: Node, cfg: LegacyConfig)
    requires node.Directive? && cfg.imageTag(node.name).None? && node.name == "badge"
    ensures node.kind == LeafDirective ==> Visit(node, cfg).outcome == Err(BadgeLeafError)
    ensures node.kind == ContainerDirective ==> Visit(node, cfg).outcome == Err(BadgeContainerError)
    ensures Visit(node, cfg).outcome.Ok? ==> Visit(node, cfg).data.hName == Some("span")
  {
  }

  /** A name the badge pattern matches, other than the three reserved ones: a text directive of a valid type. */
  lemma DispatchTypedBadge(node: Node, cfg: LegacyConfig)
    requires node.Directive? && cfg.imageTag(node.name).None? && cfg.badgeType(node.name).Some?
    requires node.name != "video" && node.name != "link" && node.name != "badge"
    ensures node.kind == LeafDirective ==> Visit(node, cfg).outcome == Err(TypedBadgeLeafError)
    ensures node.kind == ContainerDirective ==> Visit(node, cfg).outcome == Err(TypedBadgeContainerError)
    ensures node.kind == TextDirective && cfg.badgeType(node.name).value !in cfg.validBadges ==>
              Visit(node, cfg).outcome == Err(InvalidBadgeError)
    ensures Visit(node, cfg).outcome.Ok? ==> Visit(node, cfg).data.hName == Some("span")
  {
  }

  /** Any other name, of any kind, becomes the element hastscript makes; it never throws. */
  lemma DispatchCommon(node: Node, cfg: LegacyConfig)
    requires node.Directive? && cfg.imageTag(node.name).None? && cfg.badgeType(node.name).None?
    requires node.name != "video" && node.name != "link" && node.name != "badge"
    ensures Visit(node, cfg).outcome.Ok?
    ensures Visit(node, cfg).data.hName == Some(cfg.hyperscript(node.name, node.attributes).0)
    ensures Visit(node, cfg).data.hProperties == Some(cfg.hyperscript(node.name, node.attributes).1)
    ensures Visit(node, cfg).children == node.children
  {
  }

  // ---------------------------------------------------------------------------
  // :::image-a and :::image-figure
  // ---------------------------------------------------------------------------

  /** `image-a` needs a truthy `href`; its props are `target: '_blank'` overridden by the attributes. */
  lemma ImageAnchor(node: Node, cfg: LegacyConfig)
    requires node.Directive? && node.kind == ContainerDirective && node.name == "image-a"
    ensures var run := ImageBranch(node, cfg);
            (run.outcome.Ok? <==> Truthy(Lookup(node.attributes, "href"))) &&
            (run.outcome.Ok? ==>
               run.data.hName == Some("a") &&
               (forall k :: HasKey(node.attributes, k) ==> Lookup(run.data.hProperties.value, k) == Lookup(node.attributes, k)) &&
               (!HasKey(node.attributes, "target") ==> Lookup(run.data.hProperties.value, "target") == Str("_blank")))
  {
  }

  /**
   * The caption's sources in order: a label paragraph led by text is used
   * and shifted off; otherwise the alt text of an image leading the first
   * paragraph; otherwise the figure throws. The figcaption, with the raw
   * attributes as its props, goes last.
   */
  lemma FigureCaption(node: Node)
    requires node.Directive? && node.children != []
    requires node.children[0].Paragraph? && node.children[0].children != []
    ensures var first := node.children[0];
            var lead := first.children[0];
            var run := FigureBranch(node);
            var figcaptionData := NodeData(Some("figcaption"), Some(node.attributes), None, false);
            (first.data.directiveLabel && lead.Text? ==>
               run.outcome.Ok? && run.children == node.children[1..] + [Paragraph(first.children, figcaptionData)]) &&
            (!(first.data.directiveLabel && lead.Text?) && lead.Image? && lead.alt != "" ==>
               run.outcome.Ok? && run.children == node.children + [Paragraph([Text(lead.alt, EmptyData)], figcaptionData)]) &&
            (!(first.data.directiveLabel && lead.Text?) && !(lead.Image? && lead.alt != "") ==>
               run.outcome == Err(FigcaptionError) && run.children == node.children)
  {
  }

  // ---------------------------------------------------------------------------
  // ::video
  // ---------------------------------------------------------------------------

  /**
   * The iframe source: the first of `youtubeId`, `bilibiliId`, `vimeoId`
   * that is set, through its platform; `iframeSrc` only when none is set.
   */
  lemma LegacyVideoSource(attrs: Attrs, cfg: LegacyConfig)
    ensures var y := AttrText(attrs, "youtubeId");
            var b := AttrText(attrs, "bilibiliId");
            var v := AttrText(attrs, "vimeoId");
            var source := VideoSource(attrs, cfg);
            (y != "" && cfg.videoPlatform("youtubeId", y) != "" ==> source == cfg.videoPlatform("youtubeId", y)) &&
            (y == "" && b != "" && cfg.videoPlatform("bilibiliId", b) != "" ==> source == cfg.videoPlatform("bilibiliId", b)) &&
            (y == "" && b == "" && v != "" && cfg.videoPlatform("vimeoId", v) != "" ==> source == cfg.videoPlatform("vimeoId", v)) &&
            (y == "" && b == "" && v == "" ==> source == AttrText(attrs, "iframeSrc"))
  {
    var keys := VideoIdKeys;
    var y := AttrText(attrs, "youtubeId");
    var b := AttrText(attrs, "bilibiliId");
    var v := AttrText(attrs, "vimeoId");
    assert keys[0] == "youtubeId" && keys[1..] == ["bilibiliId", "vimeoId"];
    assert keys[1..][0] == "bilibiliId" && keys[1..][1..] == ["vimeoId"];
    assert keys[1..][1..][0] == "vimeoId" && keys[1..][1..][1..] == [];
    assert PlatformSource(attrs, cfg, keys[1..][1..][1..]) == "";
    assert PlatformSource(attrs, cfg, keys[1..][1..]) == if v != "" then cfg.videoPlatform("vimeoId", v) else "";
    assert PlatformSource(attrs, cfg, keys[1..]) == if b != "" then cfg.videoPlatform("bilibiliId", b) else PlatformSource(attrs, cfg, keys[1..][1..]);
    assert PlatformSource(attrs, cfg, keys) == if y != "" then cfg.videoPlatform("youtubeId", y) else PlatformSource(attrs, cfg, keys[1..]);
  }

  /** A leaf `video` throws exactly when no id attribute is set; otherwise the iframe gets the source. */
  lemma LegacyVideoChecks(node: Node, cfg: LegacyConfig)
    requires node.Directive? && node.kind == LeafDirective
    ensures VideoBranch(node, cfg).outcome.Ok? <==> HasVideoId(node.attributes)
    ensures !HasVideoId(node.attributes) ==> VideoBranch(node, cfg).outcome == Err(MissingVideoIdError)
    ensures VideoBranch(node, cfg).outcome.Ok? ==>
              VideoBranch(node, cfg).data.hChildren.Some? && |VideoBranch(node, cfg).data.hChildren.value| == 1 &&
              Lookup(VideoBranch(node, cfg).data.hChildren.value[0].properties, "src") == Str(VideoSource(node.attributes, cfg))
  {
    if HasVideoId(node.attributes) {
      var iframe := Iframe(node.attributes, VideoSource(node.attributes, cfg));
      assert iframe.properties[1] == ("src", Str(VideoSource(node.attributes, cfg)));
    }
  }

  // ---------------------------------------------------------------------------
  // :link
  // ---------------------------------------------------------------------------

  /**
   * The checks, in order: a label unless there is an `id`; a `style` from
   * the link styles; a `tab` from the GitHub tabs, whose organisation form
   * sets `isOrg` and is stripped.
   */
  lemma LegacyLinkChecks(node: Node, cfg: LegacyConfig)
    requires node.Directive?
    ensures var style := AttrText(node.attributes, "style");
            var tab := AttrText(node.attributes, "tab");
            var checked := LinkChecks(node, cfg);
            (LeadingText(node.children).None? && AttrText(node.attributes, "id") == "" ==> checked == Err(MissingLinkTextError)) &&
            ((LeadingText(node.children).Some? || AttrText(node.attributes, "id") != "") ==>
               (style != "" && style !in cfg.linkStyles ==> checked == Err(InvalidStyleError)) &&
               ((style == "" || style in cfg.linkStyles) && tab != "" && tab !in cfg.githubTabs ==> checked == Err(InvalidTabError)) &&
               ((style == "" || style in cfg.linkStyles) && (tab == "" || tab in cfg.githubTabs) ==>
                  checked.Ok? && checked.value.style == style &&
                  checked.value.isOrg == (tab != "" && cfg.tabOrg(tab).Some?) &&
                  checked.value.tab == (if checked.value.isOrg then cfg.tabOrg(tab).value else tab)))
  {
  }

  /** Without an `id`, a `link` gives the target, a square style by default and the favicon of its host. */
  lemma LinkWithoutId(attrs: Attrs, cfg: LegacyConfig, checked: LinkChecked)
    requires AttrText(attrs, "id") == "" && AttrText(attrs, "link") != ""
    requires AttrText(attrs, "imageUrl") != "" || cfg.hostname(AttrText(attrs, "link")).Some?
    ensures var r := LinkTarget(attrs, cfg, checked);
            r.Ok? && r.value.link == AttrText(attrs, "link") &&
            r.value.style == (if checked.style != "" then checked.style else "square") &&
            (AttrText(attrs, "imageUrl") == "" ==> r.value.image == cfg.faviconBaseUrl + cfg.hostname(AttrText(attrs, "link")).value)
  {
  }

  /**
   * An account id: a rounded style by default; the `link` attribute, else
   * the organisation page of the tab, else the profile with `?tab=` (empty
   * when no tab is given); the name without `@` as text by default.
   */
  lemma LinkToAccount(attrs: Attrs, cfg: LegacyConfig, checked: LinkChecked)
    requires AttrText(attrs, "id") != "" && cfg.isUsername(AttrText(attrs, "id"))
    ensures var id := AttrText(attrs, "id");
            var user := id[1..];
            var link := AttrText(attrs, "link");
            var r := LinkTarget(attrs, cfg, checked);
            r.Ok? &&
            r.value.style == (if checked.style != "" then checked.style else "rounded") &&
            r.value.text == (if checked.text != "" then checked.text else user) &&
            (link != "" ==> r.value.link == link) &&
            (link == "" && checked.tab != "" && checked.isOrg ==> r.value.link == "https://github.com/orgs/" + user + "/" + checked.tab) &&
            (link == "" && !(checked.tab != "" && checked.isOrg) ==> r.value.link == "https://github.com/" + user + "?tab=" + checked.tab)
  {
  }

  /** A repository id that is not an account: a square style by default, the repository page, and the id as text. */
  lemma LinkToRepo(attrs: Attrs, cfg: LegacyConfig, checked: LinkChecked)
    requires AttrText(attrs, "id") != "" && !cfg.isUsername(AttrText(attrs, "id")) && cfg.isRepo(AttrText(attrs, "id"))
    ensures var id := AttrText(attrs, "id");
            var r := LinkTarget(attrs, cfg, checked);
            r.Ok? &&
            r.value.style == (if checked.style != "" then checked.style else "square") &&
            r.value.link == (if AttrText(attrs, "link") != "" then AttrText(attrs, "link") else "https://github.com/" + id) &&
            r.value.text == (if checked.text != "" then checked.text else id)
  {
  }

  /** An id of neither form throws, and so does a missing id without a `link`. */
  lemma LinkTargetErrors(attrs: Attrs, cfg: LegacyConfig, checked: LinkChecked)
    ensures var id := AttrText(attrs, "id");
            (id != "" && !cfg.isUsername(id) && !cfg.isRepo(id) ==> LinkTarget(attrs, cfg, checked) == Err(InvalidIdError)) &&
            (id == "" && AttrText(attrs, "link") == "" ==> LinkTarget(attrs, cfg, checked) == Err(MissingLinkError))
  {
  }

  /** A square or rounded link is an anchor to the target, with the image span and the text. */
  lemma LinkAnchor(data: NodeData, cfg: LegacyConfig, r: LinkResolved)
    requires r.style == "square" || r.style == "rounded"
    ensures var d := LinkData(data, cfg, r);
            d.hName == Some("a") &&
            Lookup(d.hProperties.value, "href") == Str(r.link) &&
            Lookup(d.hProperties.value, "class") == Str(cfg.classPrefix + "-link-" + r.style) &&
            d.hChildren.Some? && |d.hChildren.value| == 2 && d.hChildren.value[1] == HText(r.text)
  {
    var props := LinkData(data, cfg, r).hProperties.value;
    assert props[0].0 == "class" && props[1].0 == "href";
  }

  // ---------------------------------------------------------------------------
  // :badge and :badge-*
  // ---------------------------------------------------------------------------

  lemma SplitOneColor(color: string)
    requires '|' !in color
    ensures SplitColor(color) == Ok((Trim(color), Trim(color)))
  {
    IndexOfCharAbsent(color, '|');
  }

  lemma SplitTwoColors(light: string, dark: string)
    requires '|' !in light && '|' !in dark
    ensures SplitColor(light + "|" + dark) == Ok((Trim(light), Trim(dark)))
  {
    SplitAfter(light, dark);
    IndexOfCharAbsent(dark, '|');
    assert SplitOn(light + "|" + dark, '|') == [light, dark];
  }

  lemma SplitThreeColors(a: string, b: string, rest: string)
    requires '|' !in a && '|' !in b
    ensures SplitColor(a + "|" + b + "|" + rest) == Err(ColorError)
  {
    var tail := b + "|" + rest;
    SplitAfter(b, rest);
    assert a + "|" + b + "|" + rest == a + "|" + tail;
    SplitAfter(a, tail);
    var parts := SplitOn(a + "|" + tail, '|');
    assert parts == [a] + SplitOn(tail, '|');
    assert |SplitOn(tail, '|')| >= 2;
    assert |TrimAll(parts)| == |parts| >= 3;
  }

  /** Splitting at the first separator. */
  lemma SplitAfter(a: string, b: string)
    requires '|' !in a
    ensures SplitOn(a + "|" + b, '|') == [a] + SplitOn(b, '|')
  {
    var s := a + "|" + b;
    assert s == a + ['|'] + b;
    IndexAfterPrefix(a, '|', b);
    assert s[..|a|] == a && s[|a| + 1..] == b;
  }

  /**
   * `:badge[text]`: the label is required; the colour attribute is split
   * into light and dark, and without one both are the default colour.
   */
  lemma LegacyBadge(node: Node, cfg: LegacyConfig)
    requires node.Directive? && node.kind == TextDirective
    ensures LeadingText(node.children).None? ==> BadgeBranch(node, cfg).outcome == Err(MissingBadgeTextError)
    ensures LeadingText(node.children).Some? && AttrText(node.attributes, "color") == "" ==>
              BadgeBranch(node, cfg).outcome.Ok? &&
              BadgeBranch(node, cfg).data.hProperties == Some(BadgeProps(cfg, (cfg.defaultColor, cfg.defaultColor)))
    ensures BadgeBranch(node, cfg).outcome.Ok? ==>
              BadgeBranch(node, cfg).data.hChildren == Some([HText(LeadingText(node.children).value)])
  {
  }

  /**
   * `:badge-<type>`: the colour is the attribute's, else the preset's, else
   * the default; the text is always the preset's, whatever the label.
   */
  lemma LegacyTypedBadge(node: Node, cfg: LegacyConfig, t: string)
    requires node.Directive? && node.kind == TextDirective
    requires cfg.badgeType(node.name) == Some(t) && t in cfg.validBadges && t in cfg.presets
    ensures var colorAttr := AttrText(node.attributes, "color");
            var color := if colorAttr != "" then colorAttr else cfg.presets[t].color;
            var run := TypedBadgeBranch(node, cfg);
            (run.outcome.Ok? <==> BadgeColors(color, cfg).Ok?) &&
            (run.outcome.Ok? ==>
               run.data.hProperties == Some(BadgeProps(cfg, BadgeColors(color, cfg).value)) &&
               run.data.hChildren == Some([HText(cfg.presets[t].text)])) &&
            (color == "" ==> run.outcome.Ok? && run.data.hProperties == Some(BadgeProps(cfg, (cfg.defaultColor, cfg.defaultColor))))
  {
  }

  /**
   * `:badge-<type>` of a valid type without a preset: reading the preset
   * throws a `TypeError`. Without a colour attribute it throws before
   * anything is written; with a valid one, `hName` and `hProperties` are
   * already written when the text is read.
   */
  lemma LegacyTypedBadgeNoPreset(node: Node, cfg: LegacyConfig, t: string)
    requires node.Directive? && node.kind == TextDirective
    requires cfg.badgeType(node.name) == Some(t) && t in cfg.validBadges && t !in cfg.presets
    ensures var colorAttr := AttrText(node.attributes, "color");
            var run := TypedBadgeBranch(node, cfg);
            !run.outcome.Ok? &&
            (colorAttr == "" ==> run == Run(TypeError, node.children, node.data)) &&
            (colorAttr != "" && BadgeColors(colorAttr, cfg).Ok? ==>
               run.outcome == TypeError &&
               run.data == node.data.(hName := Some("span"), hProperties := Some(BadgeProps(cfg, BadgeColors(colorAttr, cfg).value))))
  {
  }

  // ---------------------------------------------------------------------------
  // The walk
  // ---------------------------------------------------------------------------

  predicate NoDirectives(n: Node)
    decreases n
  {
    !n.Directive? && (HasChildren(n) ==> NoDirectivesAll(n.children))
  }

  predicate NoDirectivesAll(nodes: seq<Node>)
    decreases nodes
  {
    nodes != [] ==> NoDirectives(nodes[0]) && NoDirectivesAll(nodes[1..])
  }

  /** A tree without directive nodes comes out of the walk as it went in. */
  lemma {:induction false} WalkIdentity(n: Node, cfg: LegacyConfig)
    requires NoDirectives(n)
    ensures Walk(n, cfg) == Ok(n)
    decreases Size(n), 1
  {
    if HasChildren(n) {
      ChildrenSmaller(n);
      WalkAllIdentity(n.children, cfg, Size(n));
      match n
      case Paragraph(_, _) =>
      case Parent(_, _, _) =>
    }
  }

  lemma {:induction false} WalkAllIdentity(nodes: seq<Node>, cfg: LegacyConfig, bound: nat)
    requires forall i :: 0 <= i < |nodes| ==> Size(nodes[i]) < bound
    requires NoDirectivesAll(nodes)
    ensures WalkAll(nodes, cfg, bound) == Ok(nodes)
    decreases bound, 0, |nodes|
  {
    if nodes != [] {
      WalkIdentity(nodes[0], cfg);
      WalkAllIdentity(nodes[1..], cfg, bound);
      assert nodes == [nodes[0]] + nodes[1..];
    }
  }
}
