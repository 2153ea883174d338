/**
 * The `video` leaf directive (src/directives/video.ts): `::video-platform{#id}`
 * or `::video{#url}` becomes an `<iframe>`.
 */
module Video {
  import opened Basics
  import opened Strings
  import opened Props
  import opened Mdast
  import opened DirectiveRegex
  import opened Urls

  /** The `video` options: props for every iframe, and platforms added to or replacing the defaults. */
  datatype VideoOptions = VideoOptions(iframeProps: PropSource, platforms: Option<map<string, string>>)

  const TextError := "Unexpected text directive. Use double colons (`::`) for a `video` leaf directive."
  const ContainerError := "Unexpected container directive. Use double colons (`::`) for a `video` leaf directive."
  const ReservedUrlError := "Invalid `video` directive config. The `url` is reserved."
  const MissingIdError := "Invalid `video` directive. The `id` is missing."
  const InvalidPlatformError := "Invalid `video` directive. The directive failed to match a valid video platform."
  const InvalidUrlError := "Invalid `video` directive. Ensure a valid URL is passed via `id` instead of `#`."

  const DefaultClass := "rds-video"
  const DefaultIframeProps: Props := [("className", Arr([Str(DefaultClass)]))]
  const DefaultTitle := "Video Player"
  const UrlType := "url"

  /** The built-in platforms: the embed URL of each, with `{id}` where the video id goes. */
  const DefaultPlatforms: map<string, string> := map[
    "youtube" := "https://www.youtube-nocookie.com/embed/{id}",
    "bilibili" := "https://player.bilibili.com/player.html?bvid={id}",
    "vimeo" := "https://player.vimeo.com/video/{id}"
  ]

  /** `{...defaultPlatforms, ...platforms}` */
  function Platforms(options: VideoOptions): map<string, string> {
    DefaultPlatforms + options.platforms.GetOr(map[])
  }

  /**
   * The video type: a suffix must name a platform (an `in` test, which also
   * finds the names every object inherits); a bare name makes the id a URL,
   * which must look like one.
   */
  function VideoType(name: string, regex: Matcher, platforms: map<string, string>, id: string): Result<string> {
    match MatchName(regex, name)
    case Suffixed(t) =>
      if t in platforms || t in ObjectPrototypeKeys then Ok(t) else Err(InvalidPlatformError)
    case Exact => if IsCustomUrl(id) then Ok(UrlType) else Err(InvalidUrlError)
    case NoMatch => Err(InvalidUrlError)
  }

  /**
   * The iframe source: the id itself for a URL, else the platform's template
   * with its first `{id}` replaced by the id. An inherited name has no
   * `replace` to call.
   */
  function VideoSrc(videoType: string, platforms: map<string, string>, id: string): Result<string> {
    if videoType == UrlType then Ok(id)
    else if videoType in platforms then Ok(ReplaceFirst(platforms[videoType], "{id}", id))
    else TypeError
  }

  /** The iframe title: the label, else `Video Player`. */
  function VideoTitle(children: seq<Node>): string {
    LeadingText(children).GetOr(DefaultTitle)
  }

  /** The lowest layer: `{...defaultIframeProps, ...createIfNeeded(iframeProps, node)}`. */
  function IframeLayer(node: Node, options: VideoOptions): Props {
    Assign(DefaultIframeProps, CreateIfNeeded(options.iframeProps, node).GetOr([]))
  }

  function TypeLayer(videoType: string): Props {
    [("data-video", Str(videoType))]
  }

  function VideoLayers(node: Node, options: VideoOptions, videoType: string): seq<Option<Props>>
    requires node.Directive?
  {
    [Some(IframeLayer(node, options)), Some(TypeLayer(videoType)), Some(Omit(node.attributes, {"id"}))]
  }

  /** `{src, title}`, the object the merged props are spread into. */
  function Frame(src: string, title: string): Props {
    [("src", Str(src)), ("title", Str(title))]
  }

  /** `{src, title, ...mergeProps(...)}` */
  function VideoProps(node: Node, options: VideoOptions, videoType: string, src: string): Props
    requires node.Directive?
  {
    Assign(Frame(src, VideoTitle(node.children)), Merge(VideoLayers(node, options, videoType)))
  }

  /** What `handleVideoDirective` makes of the node's `data`, or the error it throws. */
  function ResolveVideo(node: Node, options: VideoOptions, regex: Matcher): Result<NodeData>
    requires node.Directive?
  {
    if node.kind == TextDirective then Err(TextError)
    else if node.kind == ContainerDirective then Err(ContainerError)
    else if options.platforms.Some? && UrlType in options.platforms.value then Err(ReservedUrlError)
    else
      var id := AttrText(node.attributes, "id");
      if id == "" then Err(MissingIdError)
      else
        var videoType :- VideoType(node.name, regex, Platforms(options), id);
        var src :- VideoSrc(videoType, Platforms(options), id);
        Ok(VideoData(node, options, videoType, src))
  }

  /** The rewritten `data`: an iframe with the computed props and no children. */
  function VideoData(node: Node, options: VideoOptions, videoType: string, src: string): NodeData
    requires node.Directive?
  {
    node.data.(hName := Some("iframe"), hProperties := Some(VideoProps(node, options, videoType, src)), hChildren := Some([]))
  }

  /**
   * `handleVideoDirective(node, config, regex)`: checks the node, the
   * platforms and the id, resolves the type, the source and the title,
   * merges the props and writes the node's `data`; nothing is written when a
   * check fails.
   */
  method HandleVideoDirective(node: DirectiveNode, options: VideoOptions, regex: Matcher) returns (outcome: Result<()>)
    modifies node
    ensures outcome == Outcome(ResolveVideo(old(node.View()), options, regex))
    ensures outcome.Ok? ==> node.data == ResolveVideo(old(node.View()), options, regex).value
    ensures !outcome.Ok? ==> node.data == old(node.data)
    ensures node.children == old(node.children)
  {
    if node.kind == TextDirective {
      return Err(TextError);
    }
    if node.kind == ContainerDirective {
      return Err(ContainerError);
    }
    var expandedPlatforms := DefaultPlatforms + options.platforms.GetOr(map[]);
    var id := AttrText(node.attributes, "id");
    if options.platforms.Some? && UrlType in options.platforms.value {
      return Err(ReservedUrlError);
    }
    if id == "" {
      return Err(MissingIdError);
    }
    var videoType :- VideoType(node.name, regex, expandedPlatforms, id);
    var src :- VideoSrc(videoType, expandedPlatforms, id);
    WriteIframe(node, options, videoType, src);
    return Ok(());
  }

  /** Title and props of a resolved video, written to the node's `data` as an iframe without children. */
  method WriteIframe(node: DirectiveNode, options: VideoOptions, videoType: string, src: string)
    modifies node
    ensures node.data == VideoData(old(node.View()), options, videoType, src)
    ensures node.children == old(node.children)
  {
    var view := node.View();
    var attrs := Omit(node.attributes, {"id"});
    var title := VideoTitle(node.children);
    var merged := MergeProps(Some(IframeLayer(view, options)), Some(TypeLayer(videoType)), Some(attrs));
    node.data := node.data.(
      hName := Some("iframe"),
      hProperties := Some(Assign(Frame(src, title), merged)),
      hChildren := Some([]));
  }

  // ---------------------------------------------------------------------------
  // What the handler promises
  // ---------------------------------------------------------------------------

  /**
   * The checks come in a fixed order: a text directive, then a container
   * directive, then a `url` platform in the options, then a missing id.
   */
  lemma VideoChecksOrder(node: Node, options: VideoOptions, regex: Matcher)
    requires node.Directive?
    ensures node.kind == TextDirective ==> ResolveVideo(node, options, regex) == Err(TextError)
    ensures node.kind == ContainerDirective ==> ResolveVideo(node, options, regex) == Err(ContainerError)
    ensures node.kind == LeafDirective && options.platforms.Some? && UrlType in options.platforms.value
        ==> ResolveVideo(node, options, regex) == Err(ReservedUrlError)
    ensures node.kind == LeafDirective && !(options.platforms.Some? && UrlType in options.platforms.value)
        ==> (ResolveVideo(node, options, regex) == Err(MissingIdError) <==> !Truthy(Lookup(node.attributes, "id")))
  {
  }

  /**
   * Once the id is there, the name decides: a suffix that is not a platform
   * is rejected, and so is a bare name whose id does not look like a URL, or
   * a name that does not match.
   */
  lemma VideoTypeCheck(node: Node, options: VideoOptions, regex: Matcher)
    requires node.Directive? && node.kind == LeafDirective
    requires !(options.platforms.Some? && UrlType in options.platforms.value)
    requires Truthy(Lookup(node.attributes, "id"))
    ensures var m := MatchName(regex, node.name);
      ResolveVideo(node, options, regex) == Err(InvalidPlatformError)
      <==> m.Suffixed? && m.suffix !in Platforms(options) && m.suffix !in ObjectPrototypeKeys
    ensures var m := MatchName(regex, node.name);
      ResolveVideo(node, options, regex) == Err(InvalidUrlError)
      <==> m.NoMatch? || (m.Exact? && !IsCustomUrl(Lookup(node.attributes, "id").s))
    ensures var m := MatchName(regex, node.name);
      ResolveVideo(node, options, regex).TypeError?
      <==> m.Suffixed? && m.suffix !in Platforms(options) && m.suffix in ObjectPrototypeKeys
  {
    assert UrlType !in ObjectPrototypeKeys;
  }

  /** User platforms replace the built-in ones of the same name and keep the others. */
  lemma PlatformsOverride(options: VideoOptions, t: string)
    ensures t in Platforms(options) <==> t in DefaultPlatforms || (options.platforms.Some? && t in options.platforms.value)
    ensures options.platforms.Some? && t in options.platforms.value ==> Platforms(options)[t] == options.platforms.value[t]
    ensures (options.platforms.None? || t !in options.platforms.value) && t in DefaultPlatforms
        ==> Platforms(options)[t] == DefaultPlatforms[t]
  {
  }

  /** A successful resolution writes the iframe with the computed props and no children. */
  lemma VideoResolved(node: Node, options: VideoOptions, regex: Matcher)
    requires node.Directive?
    requires ResolveVideo(node, options, regex).Ok?
    ensures node.kind == LeafDirective
    ensures !(options.platforms.Some? && UrlType in options.platforms.value)
    ensures AttrText(node.attributes, "id") != ""
    ensures VideoType(node.name, regex, Platforms(options), AttrText(node.attributes, "id")).Ok?
    ensures var id := AttrText(node.attributes, "id");
      var videoType := VideoType(node.name, regex, Platforms(options), id).value;
      && VideoSrc(videoType, Platforms(options), id).Ok?
      && ResolveVideo(node, options, regex).value == VideoData(node, options, videoType, VideoSrc(videoType, Platforms(options), id).value)
    ensures var r := ResolveVideo(node, options, regex).value;
      r.hName == Some("iframe") && r.hChildren == Some([])
  {
  }

  /** `url` is never a platform once the options have passed the check. */
  lemma UrlNotPlatform(options: VideoOptions)
    requires !(options.platforms.Some? && UrlType in options.platforms.value)
    ensures UrlType !in Platforms(options)
  {
  }

  /**
   * The source: the id itself for a bare name, else the platform template with
   * its first `{id}` replaced by the id.
   */
  lemma VideoSourceValue(name: string, regex: Matcher, platforms: map<string, string>, id: string)
    requires UrlType !in platforms
    requires VideoType(name, regex, platforms, id).Ok?
    requires VideoSrc(VideoType(name, regex, platforms, id).value, platforms, id).Ok?
    ensures var m := MatchName(regex, name);
      var videoType := VideoType(name, regex, platforms, id).value;
      var src := VideoSrc(videoType, platforms, id).value;
      && (m.Exact? ==> videoType == UrlType && src == id && IsCustomUrl(id))
      && (m.Suffixed? ==>
            && videoType == m.suffix
            && m.suffix in platforms
            && src == ReplaceFirst(platforms[m.suffix], "{id}", id))
  {
  }

  /** A truthy `src` from `iframeProps` or the attributes replaces the computed source. */
  lemma VideoSource(node: Node, options: VideoOptions, regex: Matcher)
    requires node.Directive?
    requires ResolveVideo(node, options, regex).Ok?
    ensures var id := AttrText(node.attributes, "id");
      var videoType := VideoType(node.name, regex, Platforms(options), id).value;
      var layers := VideoLayers(node, options, videoType);
      var props := ResolveVideo(node, options, regex).value.hProperties.value;
      && (!Truthy(LastTruthy(layers, "src")) ==> Lookup(props, "src") == Str(VideoSrc(videoType, Platforms(options), id).value))
      && (Truthy(LastTruthy(layers, "src")) ==> Lookup(props, "src") == LastTruthy(layers, "src"))
  {
    VideoResolved(node, options, regex);
    var id := AttrText(node.attributes, "id");
    var videoType := VideoType(node.name, regex, Platforms(options), id).value;
    VideoPropsLookup(node, options, videoType, VideoSrc(videoType, Platforms(options), id).value);
    MergeLookup(VideoLayers(node, options, videoType), "src");
  }

  /** The title: the label, else `Video Player`, unless a truthy `title` prop or attribute replaces it. */
  lemma VideoTitleProp(node: Node, options: VideoOptions, regex: Matcher)
    requires node.Directive?
    requires ResolveVideo(node, options, regex).Ok?
    ensures var id := AttrText(node.attributes, "id");
      var videoType := VideoType(node.name, regex, Platforms(options), id).value;
      var layers := VideoLayers(node, options, videoType);
      var props := ResolveVideo(node, options, regex).value.hProperties.value;
      && (!Truthy(LastTruthy(layers, "title")) ==> Lookup(props, "title") == Str(LeadingText(node.children).GetOr(DefaultTitle)))
      && (Truthy(LastTruthy(layers, "title")) ==> Lookup(props, "title") == LastTruthy(layers, "title"))
  {
    VideoResolved(node, options, regex);
    var id := AttrText(node.attributes, "id");
    var videoType := VideoType(node.name, regex, Platforms(options), id).value;
    VideoPropsLookup(node, options, videoType, VideoSrc(videoType, Platforms(options), id).value);
    MergeLookup(VideoLayers(node, options, videoType), "title");
  }

  /** The computed `src` and `title` go first and give way to the merged props. */
  lemma VideoPropsLookup(node: Node, options: VideoOptions, videoType: string, src: string)
    requires node.Directive?
    ensures var merged := Merge(VideoLayers(node, options, videoType));
      var props := VideoProps(node, options, videoType, src);
      && Lookup(props, "src") == (if HasKey(merged, "src") then Lookup(merged, "src") else Str(src))
      && Lookup(props, "title") == (if HasKey(merged, "title") then Lookup(merged, "title") else Str(VideoTitle(node.children)))
  {
    var frame := Frame(src, VideoTitle(node.children));
    assert frame[0].0 == "src" && frame[1].0 == "title";
  }

  /**
   * The `id` attribute is consumed: the iframe has an `id` only when
   * `iframeProps` gives it a truthy one.
   */
  lemma VideoIdConsumed(node: Node, options: VideoOptions, regex: Matcher)
    requires node.Directive?
    requires ResolveVideo(node, options, regex).Ok?
    ensures var user := CreateIfNeeded(options.iframeProps, node).GetOr([]);
      var props := ResolveVideo(node, options, regex).value.hProperties.value;
      Lookup(props, "id") == if Truthy(Lookup(user, "id")) then Lookup(user, "id") else Undefined
  {
    VideoResolved(node, options, regex);
    var id := AttrText(node.attributes, "id");
    var videoType := VideoType(node.name, regex, Platforms(options), id).value;
    PropsIdConsumed(node, options, videoType, VideoSrc(videoType, Platforms(options), id).value);
  }

  /** Only a truthy `id` of `iframeProps` reaches the iframe's props. */
  lemma PropsIdConsumed(node: Node, options: VideoOptions, videoType: string, src: string)
    requires node.Directive?
    ensures var user := CreateIfNeeded(options.iframeProps, node).GetOr([]);
      Lookup(VideoProps(node, options, videoType, src), "id") == if Truthy(Lookup(user, "id")) then Lookup(user, "id") else Undefined
  {
    LayersWithoutId(node, options, videoType);
    MergeLowestOnly(IframeLayer(node, options), TypeLayer(videoType), Omit(node.attributes, {"id"}), "id");
    FrameOtherKey(src, VideoTitle(node.children), Merge(VideoLayers(node, options, videoType)), "id");
  }

  /** Only the `iframeProps` layer can hold an `id`. */
  lemma LayersWithoutId(node: Node, options: VideoOptions, videoType: string)
    requires node.Directive?
    ensures Lookup(IframeLayer(node, options), "id") == Lookup(CreateIfNeeded(options.iframeProps, node).GetOr([]), "id")
    ensures Lookup(TypeLayer(videoType), "id") == Undefined
    ensures Lookup(Omit(node.attributes, {"id"}), "id") == Undefined
  {
    assert Keys(TypeLayer(videoType)) == ["data-video"];
    assert Keys(DefaultIframeProps) == ["className"];
  }

  /** Keys other than `src` and `title` come from the merged props alone. */
  lemma FrameOtherKey(src: string, title: string, merged: Props, k: string)
    requires k != "src" && k != "title"
    ensures Lookup(Assign(Frame(src, title), merged), k) == Lookup(merged, k)
  {
    assert Keys(Frame(src, title)) == ["src", "title"];
  }

  /** Without a `className` of its own in `iframeProps`, the first class of every iframe is `rds-video`. */
  lemma VideoDefaultClass(node: Node, options: VideoOptions, regex: Matcher)
    requires node.Directive?
    requires ResolveVideo(node, options, regex).Ok?
    requires !HasKey(CreateIfNeeded(options.iframeProps, node).GetOr([]), "className")
    ensures var props := ResolveVideo(node, options, regex).value.hProperties.value;
      && Lookup(props, "className").Arr?
      && Lookup(props, "className").items != []
      && Lookup(props, "className").items[0] == Str(DefaultClass)
  {
    VideoResolved(node, options, regex);
    var id := AttrText(node.attributes, "id");
    var videoType := VideoType(node.name, regex, Platforms(options), id).value;
    PropsDefaultClass(node, options, videoType, VideoSrc(videoType, Platforms(options), id).value);
  }

  /** `rds-video` leads the iframe's classes when `iframeProps` has no `className`. */
  lemma PropsDefaultClass(node: Node, options: VideoOptions, videoType: string, src: string)
    requires node.Directive?
    requires !HasKey(CreateIfNeeded(options.iframeProps, node).GetOr([]), "className")
    ensures var props := VideoProps(node, options, videoType, src);
      && Lookup(props, "className").Arr?
      && Lookup(props, "className").items != []
      && Lookup(props, "className").items[0] == Str(DefaultClass)
  {
    var layers := VideoLayers(node, options, videoType);
    var user := CreateIfNeeded(options.iframeProps, node).GetOr([]);
    FrameOtherKey(src, VideoTitle(node.children), Merge(layers), "className");
    DefaultClassIsWord();
    assert layers == [Some(Assign([("className", Arr([Str(DefaultClass)]))], user))] + layers[1..];
    DefaultClassFirst(DefaultClass, user, layers[1..]);
  }

  lemma DefaultClassIsWord()
    ensures Words(DefaultClass) == [DefaultClass]
  {
    WordOfNoSpace(DefaultClass);
  }
}
