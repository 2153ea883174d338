/**
 * The `badge` text directive (src/directives/badge.ts): `:badge[text]{attrs}`
 * or `:badge-type{attrs}` becomes a `<span>` holding the badge text.
 */
module Badge {
  import opened Basics
  import opened Strings
  import opened Props
  import opened Mdast
  import opened DirectiveRegex

  /** One entry of the `presets` option: the text a typed badge shows and its extra props. */
  datatype BadgePreset = BadgePreset(text: string, props: PropSource)

  /** The `badge` options: props for every badge, and the badge types. */
  datatype BadgeOptions = BadgeOptions(spanProps: PropSource, presets: Option<map<string, BadgePreset>>)

  const LeafError := "Unexpected leaf directive. Use single colon (`:`) for a `badge` text directive."
  const ContainerError := "Unexpected container directive. Use single colon (`:`) for a `badge` text directive."
  const InvalidTypeError := "Invalid `badge` directive. The directive failed to match a valid badge type. Please check the `presets` option in the `badge` config."
  const MissingTextError := "Invalid `badge` directive. The text is missing. Specify it in the `[]` of `:badge[]{}` or in the `text` field of the `presets` option in the `badge` config."

  const DefaultClass := "rds-badge"
  const DefaultSpanProps: Props := [("className", Arr([Str(DefaultClass)]))]

  /** Whether the name selects a badge type that `presets` defines. */
  predicate IsPresetType(presets: Option<map<string, BadgePreset>>, t: string) {
    presets.Some? && t in presets.value
  }

  /** The lowest layer: `{...defaultSpanProps, ...createIfNeeded(spanProps, node)}`. */
  function SpanLayer(node: Node, options: BadgeOptions): Props {
    Assign(DefaultSpanProps, CreateIfNeeded(options.spanProps, node).GetOr([]))
  }

  /** The preset layer of a typed badge: `{'data-badge': type, ...createIfNeeded(preset.props, node)}`. */
  function PresetLayer(node: Node, options: BadgeOptions, badgeType: Option<string>): Option<Props>
    requires badgeType.Some? ==> IsPresetType(options.presets, badgeType.value)
  {
    if badgeType.None? then None
    else
      var preset := options.presets.value[badgeType.value];
      Some(Assign([("data-badge", Str(badgeType.value))], CreateIfNeeded(preset.props, node).GetOr([])))
  }

  function BadgeLayers(node: Node, options: BadgeOptions, badgeType: Option<string>): seq<Option<Props>>
    requires node.Directive?
    requires badgeType.Some? ==> IsPresetType(options.presets, badgeType.value)
  {
    [Some(SpanLayer(node, options)), PresetLayer(node, options, badgeType), Some(node.attributes)]
  }

  /**
   * The badge type: `None` for a name without a suffix, the suffix when it is
   * a preset, an error otherwise.
   */
  function BadgeType(name: string, regex: Matcher, presets: Option<map<string, BadgePreset>>): (r: Result<Option<string>>)
    ensures r.Ok? && r.value.Some? ==> IsPresetType(presets, r.value.value)
  {
    match MatchName(regex, name)
    case Exact => Ok(None)
    case Suffixed(t) => if IsPresetType(presets, t) then Ok(Some(t)) else Err(InvalidTypeError)
    case NoMatch => Err(InvalidTypeError)
  }

  /** The badge text: the preset's text for a typed badge, else the leading text child; `""` when there is none. */
  function BadgeText(node: Node, options: BadgeOptions, badgeType: Option<string>): string
    requires node.Directive?
    requires badgeType.Some? ==> IsPresetType(options.presets, badgeType.value)
  {
    if badgeType.Some? then options.presets.value[badgeType.value].text
    else LeadingText(node.children).GetOr("")
  }

  /** What `handleBadgeDirective` makes of the node's `data`, or the error it throws. */
  function ResolveBadge(node: Node, options: BadgeOptions, regex: Matcher): Result<NodeData>
    requires node.Directive?
  {
    if node.kind == LeafDirective then Err(LeafError)
    else if node.kind == ContainerDirective then Err(ContainerError)
    else
      var badgeType :- BadgeType(node.name, regex, options.presets);
      var text := BadgeText(node, options, badgeType);
      if text == "" then Err(MissingTextError)
      else
        Ok(node.data.(
          hName := Some("span"),
          hProperties := Some(Merge(BadgeLayers(node, options, badgeType))),
          hChildren := Some([HText(text)])))
  }

  /**
   * `handleBadgeDirective(node, config, regex)`: checks the node, resolves
   * the type and the text, merges the props and writes the node's `data`;
   * nothing is written when a check fails.
   */
  method HandleBadgeDirective(node: DirectiveNode, options: BadgeOptions, regex: Matcher) returns (outcome: Result<()>)
    modifies node
    ensures outcome == Outcome(ResolveBadge(old(node.View()), options, regex))
    ensures outcome.Ok? ==> node.data == ResolveBadge(old(node.View()), options, regex).value
    ensures !outcome.Ok? ==> node.data == old(node.data)
    ensures node.children == old(node.children)
  {
    if node.kind == LeafDirective {
      return Err(LeafError);
    }
    if node.kind == ContainerDirective {
      return Err(ContainerError);
    }
    var view := node.View();
    var badgeType: Option<string>;
    var m := MatchName(regex, node.name);
    if m.Exact? {
      badgeType := None;
    } else if m.Suffixed? && IsPresetType(options.presets, m.suffix) {
      badgeType := Some(m.suffix);
    } else {
      return Err(InvalidTypeError);
    }
    var text: string;
    if badgeType.Some? {
      text := options.presets.value[badgeType.value].text;
    } else if |node.children| > 0 && node.children[0].Text? {
      text := node.children[0].value;
    } else {
      text := "";
    }
    if text == "" {
      return Err(MissingTextError);
    }
    var spanProperties := CreateIfNeeded(options.spanProps, view);
    var presetProps: Option<Props> := None;
    if badgeType.Some? {
      var presetProperties := CreateIfNeeded(options.presets.value[badgeType.value].props, view);
      presetProps := Some(Assign([("data-badge", Str(badgeType.value))], presetProperties.GetOr([])));
    }
    var props := MergeProps(Some(Assign(DefaultSpanProps, spanProperties.GetOr([]))), presetProps, Some(node.attributes));
    node.data := node.data.(hName := Some("span"), hProperties := Some(props), hChildren := Some([HText(text)]));
    return Ok(());
  }

  // ---------------------------------------------------------------------------
  // What the handler promises
  // ---------------------------------------------------------------------------

  /** A leaf directive, then a container directive, is rejected whatever its name and the options. */
  lemma BadgeKindChecks(node: Node, options: BadgeOptions, regex: Matcher)
    requires node.Directive?
    ensures node.kind == LeafDirective ==> ResolveBadge(node, options, regex) == Err(LeafError)
    ensures node.kind == ContainerDirective ==> ResolveBadge(node, options, regex) == Err(ContainerError)
    ensures node.kind == TextDirective ==> ResolveBadge(node, options, regex) != Err(LeafError)
    ensures node.kind == TextDirective ==> ResolveBadge(node, options, regex) != Err(ContainerError)
  {
  }

  /**
   * The type check: a name that does not match, or whose suffix is not a
   * preset, is rejected; a bare name or a preset suffix passes.
   */
  lemma BadgeTypeCheck(node: Node, options: BadgeOptions, regex: Matcher)
    requires node.Directive? && node.kind == TextDirective
    ensures var m := MatchName(regex, node.name);
      (m.NoMatch? || (m.Suffixed? && !IsPresetType(options.presets, m.suffix)))
      <==> ResolveBadge(node, options, regex) == Err(InvalidTypeError)
  {
  }

  /**
   * The text of an untyped badge is its label, and a badge without one is
   * rejected; the output is a `span` holding exactly that text.
   */
  lemma UntypedBadgeText(node: Node, options: BadgeOptions, regex: Matcher)
    requires node.Directive? && node.kind == TextDirective
    requires MatchName(regex, node.name).Exact?
    ensures var r := ResolveBadge(node, options, regex);
      && (r.Ok? <==> LeadingText(node.children).Some? && LeadingText(node.children).value != "")
      && (!r.Ok? ==> r == Err(MissingTextError))
      && (r.Ok? ==>
            r.value.hName == Some("span") && r.value.hChildren == Some([HText(node.children[0].value)]))
  {
  }

  /**
   * A typed badge always shows the preset's text, whatever its label: it is
   * rejected exactly when that text is empty.
   */
  lemma TypedBadgeText(node: Node, options: BadgeOptions, regex: Matcher)
    requires node.Directive? && node.kind == TextDirective
    requires MatchName(regex, node.name).Suffixed?
    requires IsPresetType(options.presets, MatchName(regex, node.name).suffix)
    ensures var text := options.presets.value[MatchName(regex, node.name).suffix].text;
      var r := ResolveBadge(node, options, regex);
      && (r.Ok? <==> text != "")
      && (!r.Ok? ==> r == Err(MissingTextError))
      && (r.Ok? ==> r.value.hName == Some("span") && r.value.hChildren == Some([HText(text)]))
  {
  }

  /** A successful resolution writes the span, the merged props of the three layers and the text. */
  lemma BadgeResolved(node: Node, options: BadgeOptions, regex: Matcher)
    requires node.Directive?
    requires ResolveBadge(node, options, regex).Ok?
    ensures BadgeType(node.name, regex, options.presets).Ok?
    ensures var badgeType := BadgeType(node.name, regex, options.presets).value;
      ResolveBadge(node, options, regex).value
      == node.data.(
           hName := Some("span"),
           hProperties := Some(Merge(BadgeLayers(node, options, badgeType))),
           hChildren := Some([HText(BadgeText(node, options, badgeType))]))
  {
  }

  /** Attributes beat the preset layer and `spanProps` for every key but the class keys. */
  lemma BadgeAttributesWin(node: Node, options: BadgeOptions, regex: Matcher, k: string)
    requires node.Directive?
    requires ResolveBadge(node, options, regex).Ok?
    requires !IsClassKey(k) && Truthy(Lookup(node.attributes, k))
    ensures var d := ResolveBadge(node, options, regex).value;
      d.hProperties.Some? && Lookup(d.hProperties.value, k) == Lookup(node.attributes, k)
  {
    BadgeResolved(node, options, regex);
    var layers := BadgeLayers(node, options, BadgeType(node.name, regex, options.presets).value);
    MergePrecedence(layers[0], layers[1], layers[2], k);
  }

  /**
   * A typed badge carries `data-badge: type` unless the preset props set
   * `data-badge` themselves or the attributes give it a truthy value.
   */
  lemma BadgeDataAttribute(node: Node, options: BadgeOptions, regex: Matcher)
    requires node.Directive?
    requires ResolveBadge(node, options, regex).Ok?
    requires MatchName(regex, node.name).Suffixed?
    requires !Truthy(Lookup(node.attributes, "data-badge"))
    requires var m := MatchName(regex, node.name);
      !HasKey(CreateIfNeeded(options.presets.value[m.suffix].props, node).GetOr([]), "data-badge")
    ensures var d := ResolveBadge(node, options, regex).value;
      d.hProperties.Some? && Lookup(d.hProperties.value, "data-badge") == Str(MatchName(regex, node.name).suffix)
  {
    BadgeResolved(node, options, regex);
    var badgeType := BadgeType(node.name, regex, options.presets).value;
    var layers := BadgeLayers(node, options, badgeType);
    MergePrecedence(layers[0], layers[1], layers[2], "data-badge");
  }

  /** A `spanProps.className` of the user's replaces the default class in the lowest layer. */
  lemma BadgeClassReplaced(node: Node, options: BadgeOptions)
    requires HasKey(CreateIfNeeded(options.spanProps, node).GetOr([]), "className")
    ensures Lookup(SpanLayer(node, options), "className")
         == Lookup(CreateIfNeeded(options.spanProps, node).GetOr([]), "className")
  {
  }

  /** Without a `className` of its own in `spanProps`, the first class of every badge is `rds-badge`. */
  lemma BadgeDefaultClass(node: Node, options: BadgeOptions, regex: Matcher)
    requires node.Directive?
    requires ResolveBadge(node, options, regex).Ok?
    requires !HasKey(CreateIfNeeded(options.spanProps, node).GetOr([]), "className")
    ensures var d := ResolveBadge(node, options, regex).value;
      && d.hProperties.Some?
      && Lookup(d.hProperties.value, "className").Arr?
      && Lookup(d.hProperties.value, "className").items != []
      && Lookup(d.hProperties.value, "className").items[0] == Str(DefaultClass)
  {
    BadgeResolved(node, options, regex);
    var user := CreateIfNeeded(options.spanProps, node).GetOr([]);
    var badgeType := BadgeType(node.name, regex, options.presets).value;
    var layers := BadgeLayers(node, options, badgeType);
    DefaultClassIsWord();
    assert layers == [Some(Assign(DefaultSpanProps, user))] + layers[1..];
    DefaultClassFirst(DefaultClass, user, layers[1..]);
  }

  lemma DefaultClassIsWord()
    ensures Words(DefaultClass) == [DefaultClass]
  {
    WordOfNoSpace(DefaultClass);
  }
}
