/**
 * The older transformer of src/index.ts: one visitor over the whole tree
 * that rewrites every directive node by its name, in the order image
 * pattern, `video`, `link`, `badge`, badge pattern, and otherwise the
 * generic element of hastscript.
 *
 * The constants and patterns this transformer imports (the image and badge
 * patterns, the video platforms, the link styles and tabs, the GitHub
 * patterns, the SVG icon paths, the favicon service, the badge presets) are
 * not part of this model: they are fields of `LegacyConfig`, as are the
 * WHATWG URL parser and hastscript's `h`.
 */
module Legacy {
  import opened Basics
  import opened Strings
  import opened Props
  import opened Mdast

  /** A badge preset: its text and its colour (`""` when it has none). */
  datatype LegacyPreset = LegacyPreset(text: string, color: string)

  /** The configuration and the imported constants, patterns and library calls. */
  datatype LegacyConfig = LegacyConfig(
    classPrefix: string,
    /** `imageRegex`: the captured tag when the name matches, `None` when it does not. */
    imageTag: string -> Option<string>,
    validTagsForImg: set<string>,
    /** `videoPlatforms[key](id)` */
    videoPlatform: (string, string) -> string,
    linkStyles: set<string>,
    githubTabs: set<string>,
    /** `tabOrgRegex`: the tab without its organisation prefix when it matches. */
    tabOrg: string -> Option<string>,
    isUsername: string -> bool,
    isRepo: string -> bool,
    /** The owner captured by `githubRepoRegex`. */
    repoOwner: string -> string,
    faviconBaseUrl: string,
    /** `new URL(link).hostname`, `None` where the constructor throws. */
    hostname: string -> Option<string>,
    iconSvgPath: string -> string,
    /** `badgeRegex`: the captured badge type when the name matches. */
    badgeType: string -> Option<string>,
    validBadges: set<string>,
    presets: map<string, LegacyPreset>,
    defaultColor: string,
    /** hastscript's `h(name, attributes)`: its tag name and properties. */
    hyperscript: (string, Attrs) -> (string, Props))

  const ImageTextError := "Unexpected `:image` text directive. Use three colons (`:::`) for an `image` container directive."
  const ImageLeafError := "Unexpected `::image` leaf directive. Use three colons (`:::`) for an `image` container directive."
  const FigcaptionError := "Invalid image-figure directive. The figcaption text is missing. Specify it in the '[]' of ':::image-figure[]{}' or '![]()'."
  const MissingHrefError := "Unexpectedly missing `href` in the `image-a` directive."
  const InvalidImageTagError := "The `image-*` directive failed to match a valid tag."
  const VideoTextError := "Unexpected `:video` text directive. Use double colons (`::`) for an `video` leaf directive."
  const VideoContainerError := "Unexpected `:::video` container directive. Use double colons (`::`) for an `video` leaf directive."
  const MissingVideoIdError := "Invalid `video` directive. Unexpectedly missing one of the following: `youtubeId`, `bilibiliId`, `iframeSrc`."
  const LinkLeafError := "Unexpected `::link` leaf directive. Use single colon (`:`) for a `link` text directive."
  const LinkContainerError := "Unexpected `:::link` container directive. Use single colon (`:`) for a `link` text directive."
  const MissingLinkTextError := "Invalid `link` directive. The text in the `[]` of `:link[]{}` is required if `id` attribute is not specified."
  const InvalidStyleError := "Invalid `link` directive. The `style` must be one of \"square\", \"rounded\", or \"github\"."
  const InvalidTabError := "Invalid `link` directive. The `tab` must be one of the following: \"repositories\", \"projects\", \"packages\", \"stars\", \"sponsoring\", \"sponsors\", \"org-repositories\", \"org-projects\", \"org-packages\", \"org-sponsoring\", or \"org-people\"."
  const InvalidIdError := "Invalid `link` directive. The `id` attribute must be provided in the format `@username` or `username/reponame`."
  const MissingLinkError := "Invalid `link` directive. The `link` attribute is required if `id` attribute is not specified."
  const BadgeLeafError := "Unexpected `::badge` leaf directive. Use single colon (`:`) for a `badge` text directive."
  const BadgeContainerError := "Unexpected `:::badge` container directive. Use single colon (`:`) for a `badge` text directive."
  const MissingBadgeTextError := "Invalid `badge` directive. The text in the `[]` of `:badge[]{}` is required."
  const ColorError := "Invalid `badge` directive. The `color` expected one or two color values split by '|'."
  const TypedBadgeLeafError := "Unexpected `::badge-*` leaf directive. Use single colon (`:`) for a `badge` text directive."
  const TypedBadgeContainerError := "Unexpected `:::badge-*` container directive. Use single colon (`:`) for a `badge` text directive."
  const InvalidBadgeError := "The `badge` directive failed to match a valid badge name."

  const GithubSite := "https://github.com/"

  /** `a || b` on strings. */
  function OrElse(a: string, b: string): (r: string)
    ensures a != "" ==> r == a
    ensures a == "" ==> r == b
  {
    if a != "" then a else b
  }

  /** A throw before anything is written. */
  function Fail(node: Node, message: string): Run
    requires node.Directive?
  {
    Run(Err(message), node.children, node.data)
  }

  /** The run with its failure, and the children and `data` left behind. */
  function Throw<T>(r: Result<T>, children: seq<Node>, data: NodeData): Run
    requires !r.Ok?
  {
    Run(Outcome(r), children, data)
  }

  // ---------------------------------------------------------------------------
  // :::image-*
  // ---------------------------------------------------------------------------

  /**
   * The figure caption: a label paragraph led by text is taken out and used;
   * else a first paragraph led by an image with alt text gives that text;
   * reading the first child of an empty first paragraph fails.
   */
  function LegacyCaption(children: seq<Node>): Result<CaptionSource> {
    if children == [] then TypeError
    else
      var first := children[0];
      if first.Paragraph? && first.children == [] then TypeError
      else if first.Paragraph? && first.data.directiveLabel && first.children[0].Text? then
        Ok(CaptionSource(first.children, children[1..]))
      else if first.Paragraph? && first.children[0].Image? && first.children[0].alt != "" then
        Ok(CaptionSource([Text(first.children[0].alt, EmptyData)], children))
      else Err(FigcaptionError)
  }

  /** `image-figure`: the `figure` name is written first, then the caption is appended or the run throws. */
  function FigureBranch(node: Node): (r: Run)
    requires node.Directive?
    ensures !r.outcome.Ok? ==> r.children == node.children
    ensures r.data.hName == Some("figure") && r.data.hProperties == None
  {
    var data := node.data.(hName := Some("figure"), hProperties := None);
    var caption := LegacyCaption(node.children);
    if !caption.Ok? then Throw(caption, node.children, data)
    else
      var figcaption := Paragraph(caption.value.content, NodeData(Some("figcaption"), Some(node.attributes), None, false));
      Run(Ok(()), caption.value.remaining + [figcaption], data)
  }

  /** `{ target: '_blank' }` */
  const NewTab: Props := [("target", Str("_blank"))]

  function ImageBranch(node: Node, cfg: LegacyConfig): (r: Run)
    requires node.Directive?
    ensures !(node.kind.ContainerDirective? && node.name == "image-figure") ==> r.children == node.children
  {
    if node.kind == TextDirective then Fail(node, ImageTextError)
    else if node.kind == LeafDirective then Fail(node, ImageLeafError)
    else if node.name == "image-figure" then FigureBranch(node)
    else if node.name == "image-a" then
      if !Truthy(Lookup(node.attributes, "href")) then Fail(node, MissingHrefError)
      else Run(Ok(()), node.children, node.data.(hName := Some("a"), hProperties := Some(Assign(NewTab, node.attributes))))
    else
      var tag := cfg.imageTag(node.name);
      if tag.Some? && tag.value in cfg.validTagsForImg then
        Run(Ok(()), node.children, node.data.(hName := Some(tag.value), hProperties := Some(node.attributes)))
      else Fail(node, InvalidImageTagError)
  }

  // ---------------------------------------------------------------------------
  // ::video
  // ---------------------------------------------------------------------------

  /** The id attributes in the order the loop tries them. */
  const VideoIdKeys := ["youtubeId", "bilibiliId", "vimeoId"]

  /** The platform source of the first id attribute that is set, or `''`. */
  function PlatformSource(attrs: Attrs, cfg: LegacyConfig, keys: seq<string>): string {
    if keys == [] then ""
    else
      var id := AttrText(attrs, keys[0]);
      if id != "" then cfg.videoPlatform(keys[0], id) else PlatformSource(attrs, cfg, keys[1..])
  }

  /** The iframe source: the platform's, or `iframeSrc` when that is empty. */
  function VideoSource(attrs: Attrs, cfg: LegacyConfig): string {
    var source := PlatformSource(attrs, cfg, VideoIdKeys);
    if source == "" && AttrText(attrs, "iframeSrc") != "" then AttrText(attrs, "iframeSrc") else source
  }

  /** `attributes.noScale && value` */
  function NoScale(attrs: Attrs, value: string): Value {
    if Truthy(Lookup(attrs, "noScale")) then Str(value) else Lookup(attrs, "noScale")
  }

  const IframeAllow := "accelerometer; clipboard-write; encrypted-media; gyroscope; picture-in-picture; web-share"

  function Iframe(attrs: Attrs, source: string): Hast {
    var title := if Truthy(Lookup(attrs, "title")) then Lookup(attrs, "title") else Str("Video Player");
    HElement("iframe", [
      ("style", NoScale(attrs, "transform: none")),
      ("src", Str(source)),
      ("title", title),
      ("loading", Str("lazy")),
      ("allow", Str(IframeAllow)),
      ("allowFullScreen", Bool(true))], [])
  }

  function VideoData(data: NodeData, attrs: Attrs, cfg: LegacyConfig, source: string): NodeData {
    data.(
      hName := Some("div"),
      hProperties := Some([("class", Str(cfg.classPrefix + "-video")), ("style", NoScale(attrs, "margin: 1rem 0"))]),
      hChildren := Some([Iframe(attrs, source)]))
  }

  predicate HasVideoId(attrs: Attrs) {
    AttrText(attrs, "youtubeId") != "" || AttrText(attrs, "bilibiliId") != ""
    || AttrText(attrs, "vimeoId") != "" || AttrText(attrs, "iframeSrc") != ""
  }

  function VideoBranch(node: Node, cfg: LegacyConfig): (r: Run)
    requires node.Directive?
    ensures r.children == node.children
  {
    if node.kind == TextDirective then Fail(node, VideoTextError)
    else if node.kind == ContainerDirective then Fail(node, VideoContainerError)
    else if !HasVideoId(node.attributes) then Fail(node, MissingVideoIdError)
    else Run(Ok(()), node.children, VideoData(node.data, node.attributes, cfg, VideoSource(node.attributes, cfg)))
  }

  // ---------------------------------------------------------------------------
  // :link
  // ---------------------------------------------------------------------------

  /** What the checks leave in the `let` variables: the label text, the style, the tab and its scope. */
  datatype LinkChecked = LinkChecked(text: string, style: string, tab: string, isOrg: bool)

  /** The resolved link: its target, its image, its style and its text. */
  datatype LinkResolved = LinkResolved(link: string, image: string, style: string, text: string)

  /** The label, style and tab checks, in the order they throw. */
  function LinkChecks(node: Node, cfg: LegacyConfig): Result<LinkChecked>
    requires node.Directive?
  {
    var text := LeadingText(node.children);
    var style := AttrText(node.attributes, "style");
    var tab := AttrText(node.attributes, "tab");
    if text.None? && AttrText(node.attributes, "id") == "" then Err(MissingLinkTextError)
    else if style != "" && style !in cfg.linkStyles then Err(InvalidStyleError)
    else if tab != "" && tab !in cfg.githubTabs then Err(InvalidTabError)
    else
      var org := if tab != "" then cfg.tabOrg(tab) else None;
      Ok(LinkChecked(text.GetOr(""), style, if org.Some? then org.value else tab, org.Some?))
  }

  /** The GitHub account URL: the organisation tab page, or the profile with `?tab=`. */
  function AccountLink(user: string, checked: LinkChecked): string {
    if checked.tab != "" && checked.isOrg then GithubSite + "orgs/" + user + "/" + checked.tab
    else GithubSite + user + "?tab=" + checked.tab
  }

  /** The link, image, style and text, or the error for a missing or invalid target. */
  function LinkTarget(attrs: Attrs, cfg: LegacyConfig, checked: LinkChecked): Result<LinkResolved> {
    var id := AttrText(attrs, "id");
    var link := AttrText(attrs, "link");
    var imageUrl := AttrText(attrs, "imageUrl");
    if id == "" && link != "" then
      var image :- if imageUrl != "" then Ok(imageUrl)
                   else if cfg.hostname(link).Some? then Ok(cfg.faviconBaseUrl + cfg.hostname(link).value)
                   else TypeError;
      Ok(LinkResolved(link, image, OrElse(checked.style, "square"), checked.text))
    else if id != "" && cfg.isUsername(id) then
      var user := id[1..];
      Ok(LinkResolved(
        OrElse(link, AccountLink(user, checked)),
        OrElse(imageUrl, GithubSite + user + ".png"),
        OrElse(checked.style, "rounded"),
        OrElse(checked.text, user)))
    else if id != "" && cfg.isRepo(id) then
      Ok(LinkResolved(
        OrElse(link, GithubSite + id),
        OrElse(imageUrl, GithubSite + cfg.repoOwner(id) + ".png"),
        OrElse(checked.style, "square"),
        OrElse(checked.text, id)))
    else if id != "" then Err(InvalidIdError)
    else Err(MissingLinkError)
  }

  const SvgProps: Props := [
    ("xmlns", Str("http://www.w3.org/2000/svg")),
    ("width", Str("1.2em")),
    ("height", Str("1.2em")),
    ("viewBox", Str("0 0 32 32")),
    ("ariaHidden", Str("true"))]

  /** The anchor with the image span, or the icon and the anchor; any other style writes nothing. */
  function LinkData(data: NodeData, cfg: LegacyConfig, r: LinkResolved): NodeData {
    assert "class"[0] != "style"[0];
    if r.style == "square" || r.style == "rounded" then
      data.(
        hName := Some("a"),
        hProperties := Some([("class", Str(cfg.classPrefix + "-link-" + r.style)), ("href", Str(r.link))]),
        hChildren := Some([
          HElement("span", [("class", Str(cfg.classPrefix + "-link-image")), ("style", Str("background-image: url(" + r.image + ")"))], []),
          HText(r.text)]))
    else if r.style == "github" || r.style == "npm" then
      data.(
        hName := Some("span"),
        hProperties := Some([("style", Str("white-space: nowrap"))]),
        hChildren := Some([
          HElement("svg", SvgProps, [HElement("path", [("fill", Str("currentColor")), ("d", Str(cfg.iconSvgPath(r.style)))], [])]),
          HElement("a", [("class", Str(cfg.classPrefix + "-link-" + r.style)), ("href", Str(r.link))], [HText(r.text)])]))
    else data
  }

  function LinkBranch(node: Node, cfg: LegacyConfig): (r: Run)
    requires node.Directive?
    ensures r.children == node.children
  {
    if node.kind == LeafDirective then Fail(node, LinkLeafError)
    else if node.kind == ContainerDirective then Fail(node, LinkContainerError)
    else
      var checked := LinkChecks(node, cfg);
      if !checked.Ok? then Throw(checked, node.children, node.data)
      else
        var resolved := LinkTarget(node.attributes, cfg, checked.value);
        if !resolved.Ok? then Throw(resolved, node.children, node.data)
        else Run(Ok(()), node.children, LinkData(node.data, cfg, resolved.value))
  }

  // ---------------------------------------------------------------------------
  // :badge and :badge-*
  // ---------------------------------------------------------------------------

  function TrimAll(parts: seq<string>): (r: seq<string>)
    ensures |r| == |parts| && forall i :: 0 <= i < |parts| ==> r[i] == Trim(parts[i])
  {
    seq(|parts|, i requires 0 <= i < |parts| => Trim(parts[i]))
  }

  /** `color.split('|').map(trim)`: one part for both modes, two for light and dark, more is an error. */
  function SplitColor(color: string): Result<(string, string)> {
    var colors := TrimAll(SplitOn(color, '|'));
    if |colors| == 1 then Ok((colors[0], colors[0]))
    else if |colors| == 2 then Ok((colors[0], colors[1]))
    else Err(ColorError)
  }

  /** The light and dark colours: split from the colour, or the default colour for both. */
  function BadgeColors(color: string, cfg: LegacyConfig): Result<(string, string)> {
    if color != "" then SplitColor(color) else Ok((cfg.defaultColor, cfg.defaultColor))
  }

  function BadgeProps(cfg: LegacyConfig, colors: (string, string)): Props {
    [("class", Str(cfg.classPrefix + "-badge")),
     ("style", Str("--badge-color-light:" + colors.0 + "; --badge-color-dark:" + colors.1))]
  }

  function BadgeBranch(node: Node, cfg: LegacyConfig): (r: Run)
    requires node.Directive?
    ensures r.children == node.children
  {
    if node.kind == LeafDirective then Fail(node, BadgeLeafError)
    else if node.kind == ContainerDirective then Fail(node, BadgeContainerError)
    else if LeadingText(node.children).None? then Fail(node, MissingBadgeTextError)
    else
      var colors := BadgeColors(AttrText(node.attributes, "color"), cfg);
      if !colors.Ok? then Throw(colors, node.children, node.data)
      else
        Run(Ok(()), node.children, node.data.(
          hName := Some("span"),
          hProperties := Some(BadgeProps(cfg, colors.value)),
          hChildren := Some([HText(LeadingText(node.children).value)])))
  }

  /**
   * `badge-<type>`: the colour attribute, else the preset's colour, else the
   * default; the text is always the preset's. A valid type without a preset
   * fails where the preset is read: for the colour when no colour attribute
   * is given, else for the text, after `hName` and `hProperties` are written.
   */
  function TypedBadgeBranch(node: Node, cfg: LegacyConfig): (r: Run)
    requires node.Directive?
    ensures r.children == node.children
  {
    if node.kind == LeafDirective then Fail(node, TypedBadgeLeafError)
    else if node.kind == ContainerDirective then Fail(node, TypedBadgeContainerError)
    else
      var t := cfg.badgeType(node.name);
      if !(t.Some? && t.value in cfg.validBadges) then Fail(node, InvalidBadgeError)
      else
        var colorAttr := AttrText(node.attributes, "color");
        if colorAttr == "" && t.value !in cfg.presets then Run(TypeError, node.children, node.data)
        else
          var color := OrElse(colorAttr, if t.value in cfg.presets then cfg.presets[t.value].color else "");
          var colors := BadgeColors(color, cfg);
          if !colors.Ok? then Throw(colors, node.children, node.data)
          else
            var data := node.data.(hName := Some("span"), hProperties := Some(BadgeProps(cfg, colors.value)));
            if t.value !in cfg.presets then Run(TypeError, node.children, data)
            else Run(Ok(()), node.children, data.(hChildren := Some([HText(cfg.presets[t.value].text)])))
  }

  // ---------------------------------------------------------------------------
  // The dispatcher and the walk
  // ---------------------------------------------------------------------------

  /** Any other name: the element hastscript makes of the name and the attributes. */
  function CommonBranch(node: Node, cfg: LegacyConfig): Run
    requires node.Directive?
  {
    var hast := cfg.hyperscript(node.name, node.attributes);
    Run(Ok(()), node.children, node.data.(hName := Some(hast.0), hProperties := Some(hast.1)))
  }

  /** The visitor on one directive node: the first branch its name selects. */
  function Visit(node: Node, cfg: LegacyConfig): Run
    requires node.Directive?
  {
    if cfg.imageTag(node.name).Some? then ImageBranch(node, cfg)
    else if node.name == "video" then VideoBranch(node, cfg)
    else if node.name == "link" then LinkBranch(node, cfg)
    else if node.name == "badge" then BadgeBranch(node, cfg)
    else if cfg.badgeType(node.name).Some? then TypedBadgeBranch(node, cfg)
    else CommonBranch(node, cfg)
  }

  /** The node count of a tree. */
  function Size(n: Node): nat
    decreases n
  {
    if HasChildren(n) then 1 + SizeAll(n.children) else 1
  }

  function SizeAll(nodes: seq<Node>): nat
    decreases nodes
  {
    if nodes == [] then 0 else Size(nodes[0]) + SizeAll(nodes[1..])
  }

  lemma {:induction false} ElementSize(nodes: seq<Node>, i: nat)
    requires i < |nodes|
    ensures Size(nodes[i]) <= SizeAll(nodes)
    decreases i
  {
    if i > 0 {
      ElementSize(nodes[1..], i - 1);
    }
  }

  lemma ChildrenSmaller(n: Node)
    requires HasChildren(n)
    ensures forall i :: 0 <= i < |n.children| ==> Size(n.children[i]) < Size(n)
  {
    forall i | 0 <= i < |n.children| ensures Size(n.children[i]) < Size(n) {
      ElementSize(n.children, i);
    }
  }

  /** The visitor never makes a child as large as the directive: the figure caption reuses a child's content. */
  lemma VisitedSmaller(n: Node, cfg: LegacyConfig)
    requires n.Directive?
    ensures forall i :: 0 <= i < |Visit(n, cfg).children| ==> Size(Visit(n, cfg).children[i]) < Size(n)
  {
    if cfg.imageTag(n.name).Some? && n.kind == ContainerDirective && n.name == "image-figure" {
      assert Visit(n, cfg) == FigureBranch(n);
      FigureSmaller(n);
    } else {
      ChildrenSmaller(n);
      assert Visit(n, cfg).children == n.children;
    }
  }

  /** The figure's children are the remaining children and a caption no larger than the first child. */
  lemma FigureSmaller(n: Node)
    requires n.Directive?
    ensures forall i :: 0 <= i < |FigureBranch(n).children| ==> Size(FigureBranch(n).children[i]) < Size(n)
  {
    ChildrenSmaller(n);
    var run := FigureBranch(n);
    if LegacyCaption(n.children).Ok? {
      var caption := LegacyCaption(n.children).value;
      var first := n.children[0];
      var figcaption := Paragraph(caption.content, NodeData(Some("figcaption"), Some(n.attributes), None, false));
      assert run.children == caption.remaining + [figcaption];
      if first.Paragraph? && first.data.directiveLabel && first.children[0].Text? {
        assert Size(figcaption) == Size(first);
      } else {
        assert caption.content == [Text(first.children[0].alt, EmptyData)];
        assert SizeAll(caption.content) == 1 by {
          assert caption.content[1..] == [];
        }
        assert Size(first.children[0]) == 1;
        ElementSize(first.children, 0);
      }
      assert caption.remaining == n.children || caption.remaining == n.children[1..];
    }
  }

  /**
   * `visit(tree, visitor)`: pre-order, each directive node rewritten before
   * its (new) children are visited; the first throw ends the walk.
   */
  function Walk(n: Node, cfg: LegacyConfig): Result<Node>
    decreases Size(n), 1
  {
    if n.Directive? then
      var run := Visit(n, cfg);
      if !run.outcome.Ok? then run.outcome.PropagateFailure()
      else
        VisitedSmaller(n, cfg);
        var kids :- WalkAll(run.children, cfg, Size(n));
        Ok(Directive(n.kind, n.name, n.attributes, kids, run.data))
    else if HasChildren(n) then
      ChildrenSmaller(n);
      var kids :- WalkAll(n.children, cfg, Size(n));
      Ok(WithChildren(n, kids))
    else Ok(n)
  }

  function WalkAll(nodes: seq<Node>, cfg: LegacyConfig, bound: nat): Result<seq<Node>>
    requires forall i :: 0 <= i < |nodes| ==> Size(nodes[i]) < bound
    decreases bound, 0, |nodes|
  {
    if nodes == [] then Ok([])
    else
      var first :- Walk(nodes[0], cfg);
      var rest :- WalkAll(nodes[1..], cfg, bound);
      Ok([first] + rest)
  }
}
