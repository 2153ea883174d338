/**
 * The visitor of src/index.ts as it runs on one directive node: it reads
 * the attributes into local variables, reassigns them branch by branch and
 * writes the node's `data` (and, for a figure, its children) in place. Each
 * method leaves the node as the branch function of `Legacy` says.
 */
module LegacyVisitor {
  import opened Basics
  import opened Strings
  import opened Props
  import opened Mdast
  import opened Legacy

  method VisitImage(node: DirectiveNode, cfg: LegacyConfig) returns (outcome: Result<()>)
    modifies node
    ensures outcome == ImageBranch(old(node.View()), cfg).outcome
    ensures node.children == ImageBranch(old(node.View()), cfg).children
    ensures node.data == ImageBranch(old(node.View()), cfg).data
  {
    if node.kind == TextDirective {
      return Err(ImageTextError);
    }
    if node.kind == LeafDirective {
      return Err(ImageLeafError);
    }
    if node.name == "image-figure" {
      node.data := node.data.(hName := Some("figure"), hProperties := None);
      var children := node.children;
      if children == [] {
        return TypeError;
      }
      var first := children[0];
      if first.Paragraph? && first.children == [] {
        return TypeError;
      }
      var content: seq<Node>;
      if first.Paragraph? && first.data.directiveLabel && first.children[0].Text? {
        content := first.children;
        node.children := children[1..];
      } else if first.Paragraph? && first.children[0].Image? && first.children[0].alt != "" {
        content := [Text(first.children[0].alt, EmptyData)];
      } else {
        return Err(FigcaptionError);
      }
      node.children := node.children + [Paragraph(content, NodeData(Some("figcaption"), Some(node.attributes), None, false))];
    } else if node.name == "image-a" {
      if !Truthy(Lookup(node.attributes, "href")) {
        return Err(MissingHrefError);
      }
      node.data := node.data.(hName := Some("a"), hProperties := Some(Assign(NewTab, node.attributes)));
    } else {
      var tag := cfg.imageTag(node.name);
      if tag.Some? && tag.value in cfg.validTagsForImg {
        node.data := node.data.(hName := Some(tag.value), hProperties := Some(node.attributes));
      } else {
        return Err(InvalidImageTagError);
      }
    }
    return Ok(());
  }

  method VisitVideo(node: DirectiveNode, cfg: LegacyConfig) returns (outcome: Result<()>)
    modifies node
    ensures outcome == VideoBranch(old(node.View()), cfg).outcome
    ensures node.children == old(node.children)
    ensures node.data == VideoBranch(old(node.View()), cfg).data
  {
    if node.kind == TextDirective {
      return Err(VideoTextError);
    }
    if node.kind == ContainerDirective {
      return Err(VideoContainerError);
    }
    var attrs := node.attributes;
    var source := "";
    if !HasVideoId(attrs) {
      return Err(MissingVideoIdError);
    }
    var keys := VideoIdKeys;
    var i := 0;
    while i < |keys|
      invariant 0 <= i <= |keys|
      invariant source == ""
      invariant PlatformSource(attrs, cfg, keys) == PlatformSource(attrs, cfg, keys[i..])
    {
      var id := AttrText(attrs, keys[i]);
      if id != "" {
        source := cfg.videoPlatform(keys[i], id);
        assert keys[i..][0] == keys[i];
        break;
      }
      assert keys[i..][1..] == keys[i + 1..];
      i := i + 1;
    }
    assert source == PlatformSource(attrs, cfg, keys);
    if source == "" && AttrText(attrs, "iframeSrc") != "" {
      source := AttrText(attrs, "iframeSrc");
    }
    node.data := VideoData(node.data, attrs, cfg, source);
    return Ok(());
  }

  /** The label, style and tab checks, reassigning the text, style and tab variables as they go. */
  method CheckLink(node: DirectiveNode, cfg: LegacyConfig) returns (checked: Result<LinkChecked>)
    ensures checked == LinkChecks(node.View(), cfg)
  {
    var resolvedText, resolvedTab, isOrg, resolvedStyle := "", "", false, "";
    var id, tab, style := AttrText(node.attributes, "id"), AttrText(node.attributes, "tab"), AttrText(node.attributes, "style");

    var leading := LeadingText(node.children);
    if leading.Some? {
      resolvedText := leading.value;
    } else if id == "" {
      return Err(MissingLinkTextError);
    }

    if style != "" && style in cfg.linkStyles {
      resolvedStyle := style;
    } else if style != "" && style !in cfg.linkStyles {
      return Err(InvalidStyleError);
    }

    if tab != "" && tab !in cfg.githubTabs {
      return Err(InvalidTabError);
    } else if tab != "" {
      var m := cfg.tabOrg(tab);
      if m.Some? {
        isOrg := true;
        resolvedTab := m.value;
      } else {
        resolvedTab := tab;
      }
    }
    return Ok(LinkChecked(resolvedText, resolvedStyle, resolvedTab, isOrg));
  }

  /** The link, image, style and text, with `||=` defaults, or the error for the id. */
  method ResolveLinkTarget(attrs: Attrs, cfg: LegacyConfig, checked: LinkChecked) returns (resolved: Result<LinkResolved>)
    ensures resolved == LinkTarget(attrs, cfg, checked)
  {
    var resolvedText, resolvedLink, resolvedImageUrl, resolvedStyle := checked.text, "", "", checked.style;
    var id, link, imageUrl := AttrText(attrs, "id"), AttrText(attrs, "link"), AttrText(attrs, "imageUrl");
    if id == "" && link != "" {
      resolvedLink := link;
      if imageUrl != "" {
        resolvedImageUrl := imageUrl;
      } else {
        var host := cfg.hostname(link);
        if host.None? {
          return TypeError;
        }
        resolvedImageUrl := cfg.faviconBaseUrl + host.value;
      }
      if resolvedStyle == "" {
        resolvedStyle := "square";
      }
    } else if id != "" {
      if cfg.isUsername(id) {
        var user := id[1..];
        resolvedLink := if link != "" then link else AccountLink(user, checked);
        resolvedImageUrl := if imageUrl != "" then imageUrl else GithubSite + user + ".png";
        if resolvedStyle == "" {
          resolvedStyle := "rounded";
        }
        if resolvedText == "" {
          resolvedText := user;
        }
      } else if cfg.isRepo(id) {
        resolvedLink := if link != "" then link else GithubSite + id;
        resolvedImageUrl := if imageUrl != "" then imageUrl else GithubSite + cfg.repoOwner(id) + ".png";
        if resolvedStyle == "" {
          resolvedStyle := "square";
        }
        if resolvedText == "" {
          resolvedText := id;
        }
      } else {
        return Err(InvalidIdError);
      }
    } else {
      return Err(MissingLinkError);
    }
    return Ok(LinkResolved(resolvedLink, resolvedImageUrl, resolvedStyle, resolvedText));
  }

  method VisitLink(node: DirectiveNode, cfg: LegacyConfig) returns (outcome: Result<()>)
    modifies node
    ensures outcome == LinkBranch(old(node.View()), cfg).outcome
    ensures node.children == old(node.children)
    ensures node.data == LinkBranch(old(node.View()), cfg).data
  {
    if node.kind == LeafDirective {
      return Err(LinkLeafError);
    }
    if node.kind == ContainerDirective {
      return Err(LinkContainerError);
    }
    var checked := CheckLink(node, cfg);
    if !checked.Ok? {
      return Outcome(checked);
    }
    var resolved := ResolveLinkTarget(node.attributes, cfg, checked.value);
    if !resolved.Ok? {
      return Outcome(resolved);
    }
    node.data := LinkData(node.data, cfg, resolved.value);
    return Ok(());
  }

  /** `color.split('|').map(trim)` into the light and dark colours, or the error. */
  method SplitColors(color: string) returns (colors: Result<(string, string)>)
    ensures colors == SplitColor(color)
  {
    var parts := TrimAll(SplitOn(color, '|'));
    if |parts| == 1 {
      colors := Ok((parts[0], parts[0]));
    } else if |parts| == 2 {
      colors := Ok((parts[0], parts[1]));
    } else {
      colors := Err(ColorError);
    }
  }

  method VisitBadge(node: DirectiveNode, cfg: LegacyConfig) returns (outcome: Result<()>)
    modifies node
    ensures outcome == BadgeBranch(old(node.View()), cfg).outcome
    ensures node.children == old(node.children)
    ensures node.data == BadgeBranch(old(node.View()), cfg).data
  {
    if node.kind == LeafDirective {
      return Err(BadgeLeafError);
    }
    if node.kind == ContainerDirective {
      return Err(BadgeContainerError);
    }
    ghost var view := node.View();
    var resolvedText, resolvedColorLight, resolvedColorDark := "", "", "";
    var color := AttrText(node.attributes, "color");
    var leading := LeadingText(node.children);
    if leading.Some? {
      resolvedText := leading.value;
    } else {
      assert LeadingText(view.children).None?;
      return Err(MissingBadgeTextError);
    }
    if color != "" {
      var colors := SplitColors(color);
      assert BadgeColors(color, cfg) == colors;
      if !colors.Ok? {
        return Err(ColorError);
      }
      resolvedColorLight, resolvedColorDark := colors.value.0, colors.value.1;
    } else {
      resolvedColorLight, resolvedColorDark := cfg.defaultColor, cfg.defaultColor;
    }
    assert BadgeColors(color, cfg) == Ok((resolvedColorLight, resolvedColorDark));
    assert LeadingText(view.children) == Some(resolvedText);
    node.data := node.data.(
      hName := Some("span"),
      hProperties := Some(BadgeProps(cfg, (resolvedColorLight, resolvedColorDark))),
      hChildren := Some([HText(resolvedText)]));
    return Ok(());
  }

  method VisitTypedBadge(node: DirectiveNode, cfg: LegacyConfig) returns (outcome: Result<()>)
    modifies node
    ensures outcome == TypedBadgeBranch(old(node.View()), cfg).outcome
    ensures node.children == old(node.children)
    ensures node.data == TypedBadgeBranch(old(node.View()), cfg).data
  {
    if node.kind == LeafDirective {
      return Err(TypedBadgeLeafError);
    }
    if node.kind == ContainerDirective {
      return Err(TypedBadgeContainerError);
    }
    var match1 := cfg.badgeType(node.name);
    if !(match1.Some? && match1.value in cfg.validBadges) {
      return Err(InvalidBadgeError);
    }
    var badgeType := match1.value;
    var resolvedColorLight, resolvedColorDark := "", "";
    var resolvedColor := AttrText(node.attributes, "color");
    if resolvedColor == "" {
      if badgeType !in cfg.presets {
        return TypeError;
      }
      resolvedColor := cfg.presets[badgeType].color;
    }
    if resolvedColor != "" {
      var colors := SplitColors(resolvedColor);
      if !colors.Ok? {
        return Err(ColorError);
      }
      resolvedColorLight, resolvedColorDark := colors.value.0, colors.value.1;
    } else {
      resolvedColorLight, resolvedColorDark := cfg.defaultColor, cfg.defaultColor;
    }
    node.data := node.data.(hName := Some("span"), hProperties := Some(BadgeProps(cfg, (resolvedColorLight, resolvedColorDark))));
    if badgeType !in cfg.presets {
      return TypeError;
    }
    node.data := node.data.(hChildren := Some([HText(cfg.presets[badgeType].text)]));
    return Ok(());
  }

  /** The visitor callback on a directive node: the branch its name selects, in order. */
  method VisitDirective(node: DirectiveNode, cfg: LegacyConfig) returns (outcome: Result<()>)
    modifies node
    ensures outcome == Visit(old(node.View()), cfg).outcome
    ensures node.children == Visit(old(node.View()), cfg).children
    ensures node.data == Visit(old(node.View()), cfg).data
  {
    if cfg.imageTag(node.name).Some? {
      outcome := VisitImage(node, cfg);
    } else if node.name == "video" {
      outcome := VisitVideo(node, cfg);
    } else if node.name == "link" {
      outcome := VisitLink(node, cfg);
    } else if node.name == "badge" {
      outcome := VisitBadge(node, cfg);
    } else if cfg.badgeType(node.name).Some? {
      outcome := VisitTypedBadge(node, cfg);
    } else {
      var hast := cfg.hyperscript(node.name, node.attributes);
      node.data := node.data.(hName := Some(hast.0), hProperties := Some(hast.1));
      outcome := Ok(());
    }
  }
}
