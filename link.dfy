/**
 * The `link` text directive (src/directives/link.ts): `:link[text]{#id}`
 * becomes an anchor to a GitHub account, a GitHub repository, an npm package
 * or any other URL, with an icon before its text.
 *
 * The handler as written has four defects (see the README's findings). The
 * members ending in `AsWritten` keep the code's behaviour and the lemmas in
 * the last section exhibit each defect; `ResolveLink` and
 * `HandleLinkDirective` use the corrected definitions.
 */
module Link {
  import opened Basics
  import opened Strings
  import opened Props
  import opened Mdast
  import opened Urls

  /**
   * The `link` options: props for every anchor and for every icon, and the
   * favicon service URL with `{domain}` where the domain goes (`""` when not
   * given).
   */
  datatype LinkOptions = LinkOptions(aProps: PropSource, spanProps: PropSource, faviconSourceUrl: string)

  /** What an `id` names, tried in this order. */
  datatype LinkType = GithubAcct | GithubRepo | NpmPkg | CustomUrl {
    /** The `data-link` value. */
    function Name(): string {
      match this
      case GithubAcct => "github-acct"
      case GithubRepo => "github-repo"
      case NpmPkg => "npm-pkg"
      case CustomUrl => "custom-url"
    }
  }

  /** A resolved tab: whether it is an organisation tab, and its name without `org-`. */
  datatype Tab = Tab(isOrg: bool, name: string)

  const LeafError := "Unexpected leaf directive. Use single colon (`:`) for a `link` text directive."
  const ContainerError := "Unexpected container directive. Use single colon (`:`) for a `link` text directive."
  const MissingIdError := "Invalid `link` directive. The `id` is missing."
  const InvalidIdError := "Invalid `link` directive. The `id` is invalid."
  const InvalidTabError := "Invalid `link` directive. The `tab` is invalid."

  const DefaultClass := "rds-link"
  const DefaultAProps: Props := [("className", Arr([Str(DefaultClass)]))]
  const DefaultFavicon := "https://www.google.com/s2/favicons?domain={domain}&sz=128"
  const GithubSite := "https://github.com/"
  const NpmDomain := "https://www.npmjs.com"

  const GithubTabs: seq<string> := [
    "repositories", "projects", "packages", "stars", "sponsoring", "sponsors",
    "org-repositories", "org-projects", "org-packages", "org-sponsoring", "org-people"
  ]
  const NpmTabs: seq<string> := ["readme", "code", "dependencies", "dependents", "versions"]

  /** The attributes the handler consumes; the rest are passed to the anchor. */
  const ConsumedAttributes: set<string> := {"id", "url", "img", "tab"}

  // ---------------------------------------------------------------------------
  // Classifying the id and the tab
  // ---------------------------------------------------------------------------

  /** What the derivations below need to know of an id of each type. */
  predicate Fits(t: LinkType, id: string) {
    && (t.GithubAcct? ==> IsGithubAccount(id))
    && (t.GithubRepo? ==> IsGithubRepo(id))
  }

  /** The link type: the first grammar the id satisfies; a missing id or one that fits none is rejected. */
  function Classify(id: string): (r: Result<LinkType>)
    ensures r.Ok? ==> Fits(r.value, id)
  {
    if id == "" then Err(MissingIdError)
    else if IsGithubAccount(id) then Ok(GithubAcct)
    else if IsGithubRepo(id) then Ok(GithubRepo)
    else if IsNpmPackage(id) then Ok(NpmPkg)
    else if IsCustomUrl(id) then Ok(CustomUrl)
    else Err(InvalidIdError)
  }

  /** A listed tab: an `org-` tab is an organisation tab named by the rest. */
  function TabOf(tab: string): Tab {
    match OrgTab(tab)
    case Some(w) => Tab(true, w)
    case None => Tab(false, tab)
  }

  predicate IsListedTab(tab: string) {
    tab in GithubTabs || tab in NpmTabs
  }

  /** The tab as the handler checks it: a present tab must be listed, and an absent one is rejected too. */
  function ResolveTabAsWritten(tab: string): (r: Result<Tab>)
  {
    if tab != "" && IsListedTab(tab) then Ok(TabOf(tab)) else Err(InvalidTabError)
  }

  /** The tab as an optional attribute: absent means no tab; a present tab must be listed. */
  function ResolveTab(tab: string): Result<Tab> {
    if tab == "" then Ok(Tab(false, ""))
    else if IsListedTab(tab) then Ok(TabOf(tab))
    else Err(InvalidTabError)
  }

  // ---------------------------------------------------------------------------
  // Text, URL and icon
  // ---------------------------------------------------------------------------

  /** The text: the label, else the account without `@`, the shortened URL, or the id itself. */
  function LinkText(children: seq<Node>, t: LinkType, id: string): string
    requires Fits(t, id)
  {
    match LeadingText(children)
    case Some(caption) => caption
    case None =>
      if t.GithubAcct? then id[1..]
      else if t.CustomUrl? then ProcessUrl(id, DefaultMaxPathLength)
      else id
  }

  /** The profile tab of an account: under `orgs/` for an organisation tab, as `?tab=` otherwise. */
  function TabUrl(acct: string, resolved: Tab): string {
    if resolved.isOrg then GithubSite + "orgs/" + acct + "/" + resolved.name
    else GithubSite + acct + "?tab=" + resolved.name
  }

  function NpmPage(id: string): string {
    NpmDomain + "/package/" + id
  }

  function NpmTabUrl(id: string, resolved: Tab): string {
    NpmPage(id) + "?activeTab=" + resolved.name
  }

  /**
   * The URL as written: for an account or a package, `url || tab ? tabUrl :
   * plainUrl` tests `url` but never uses it.
   */
  function LinkUrlAsWritten(t: LinkType, id: string, url: string, tab: string, resolved: Tab): (r: string)
    requires Fits(t, id)
    ensures url == "" ==> r == LinkUrl(t, id, url, tab, resolved)
    ensures tab != "" ==> r == LinkUrl(t, id, if t.GithubAcct? || t.NpmPkg? then "" else url, tab, resolved)
  {
    match t
    case GithubAcct => if url != "" || tab != "" then TabUrl(id[1..], resolved) else GithubSite + id[1..]
    case GithubRepo => if url != "" then url else GithubSite + id
    case NpmPkg => if url != "" || tab != "" then NpmTabUrl(id, resolved) else NpmPage(id)
    case CustomUrl => if url != "" then url else id
  }

  /** The URL: a `url` attribute wins; else the tab page when a tab is given; else the plain page. */
  function LinkUrl(t: LinkType, id: string, url: string, tab: string, resolved: Tab): string
    requires Fits(t, id)
  {
    if url != "" then url
    else
      match t
      case GithubAcct => if tab != "" then TabUrl(id[1..], resolved) else GithubSite + id[1..]
      case GithubRepo => GithubSite + id
      case NpmPkg => if tab != "" then NpmTabUrl(id, resolved) else NpmPage(id)
      case CustomUrl => id
  }

  function FaviconUrl(options: LinkOptions): string {
    if options.faviconSourceUrl != "" then options.faviconSourceUrl else DefaultFavicon
  }

  /** The icon: an `img` attribute wins; else the avatar of the account or owner, or a favicon. */
  function LinkImage(t: LinkType, id: string, img: string, favicon: string, href: string): string
    requires Fits(t, id)
  {
    if img != "" then img
    else
      match t
      case GithubAcct => GithubSite + id[1..] + ".png"
      case GithubRepo => GithubSite + RepoOwner(id) + ".png"
      case NpmPkg => ReplaceFirst(favicon, "{domain}", NpmDomain)
      case CustomUrl => ReplaceFirst(favicon, "{domain}", href)
  }

  // ---------------------------------------------------------------------------
  // Props and the rewritten data
  // ---------------------------------------------------------------------------

  /** The own enumerable properties a spread copies: none for a function. */
  function Spread(v: PropSource): Props {
    match v
    case FixedProps(p) => p
    case _ => []
  }

  /** `createIfNeeded({...defaultAProps, ...aProps}, node)`: a function given as `aProps` is spread, not called. */
  function ALayerAsWritten(options: LinkOptions): (r: Props)
    ensures options.aProps.ComputedProps? ==> r == DefaultAProps
    ensures !options.aProps.ComputedProps? ==> forall node :: r == ALayer(node, options)
  {
    assert Keys(DefaultAProps) == ["className"];
    assert forall node :: !options.aProps.ComputedProps? ==> CreateIfNeeded(options.aProps, node).GetOr([]) == Spread(options.aProps);
    Assign(DefaultAProps, Spread(options.aProps))
  }

  /** `{...defaultAProps, ...createIfNeeded(aProps, node)}` */
  function ALayer(node: Node, options: LinkOptions): Props {
    Assign(DefaultAProps, CreateIfNeeded(options.aProps, node).GetOr([]))
  }

  function TypeLayer(t: LinkType): Props {
    [("data-link", Str(t.Name()))]
  }

  function LinkAttrs(node: Node): Props
    requires node.Directive?
  {
    Omit(node.attributes, ConsumedAttributes)
  }

  function LinkLayers(node: Node, options: LinkOptions, t: LinkType): seq<Option<Props>>
    requires node.Directive?
  {
    [Some(ALayer(node, options)), Some(TypeLayer(t)), Some(LinkAttrs(node))]
  }

  /** The anchor's props as written: the merged layers, with no `href`. */
  function LinkPropsAsWritten(node: Node, options: LinkOptions, t: LinkType): (r: Props)
    requires node.Directive?
    ensures !options.aProps.ComputedProps? ==> forall href :: LinkProps(node, options, t, href) == Assign(Anchor(href), r)
  {
    assert !options.aProps.ComputedProps? ==> ALayer(node, options) == ALayerAsWritten(options);
    Merge([Some(ALayerAsWritten(options)), Some(TypeLayer(t)), Some(LinkAttrs(node))])
  }

  function Anchor(href: string): Props {
    [("href", Str(href))]
  }

  /** `{href, ...mergeProps(...)}`: the resolved URL, unless the merged props give one. */
  function LinkProps(node: Node, options: LinkOptions, t: LinkType, href: string): Props
    requires node.Directive?
  {
    Assign(Anchor(href), Merge(LinkLayers(node, options, t)))
  }

  /** The icon: a `span` whose background is the image, with `spanProps` spread over the style. */
  function Icon(node: Node, options: LinkOptions, image: string): Hast {
    HElement("span", Assign([("style", Str("background-image: url(" + image + ")"))], CreateIfNeeded(options.spanProps, node).GetOr([])), [])
  }

  /** The URL of a classified link. */
  function LinkHref(node: Node, t: LinkType, resolved: Tab): string
    requires node.Directive? && Fits(t, AttrText(node.attributes, "id"))
  {
    var attrs := node.attributes;
    LinkUrl(t, AttrText(attrs, "id"), AttrText(attrs, "url"), AttrText(attrs, "tab"), resolved)
  }

  /** The icon image of a classified link whose URL is `href`. */
  function LinkIcon(node: Node, options: LinkOptions, t: LinkType, href: string): string
    requires node.Directive? && Fits(t, AttrText(node.attributes, "id"))
  {
    LinkImage(t, AttrText(node.attributes, "id"), AttrText(node.attributes, "img"), FaviconUrl(options), href)
  }

  /** The rewritten `data`: an anchor with the icon and the text. */
  function LinkData(node: Node, options: LinkOptions, t: LinkType, resolved: Tab): NodeData
    requires node.Directive? && Fits(t, AttrText(node.attributes, "id"))
  {
    var href := LinkHref(node, t, resolved);
    var text := LinkText(node.children, t, AttrText(node.attributes, "id"));
    node.data.(
      hName := Some("a"),
      hProperties := Some(LinkProps(node, options, t, href)),
      hChildren := Some([Icon(node, options, LinkIcon(node, options, t, href)), HText(text)]))
  }

  /** What the link handler makes of the node's `data`, or the error it throws. */
  function ResolveLink(node: Node, options: LinkOptions): Result<NodeData>
    requires node.Directive?
  {
    if node.kind == LeafDirective then Err(LeafError)
    else if node.kind == ContainerDirective then Err(ContainerError)
    else
      var t :- Classify(AttrText(node.attributes, "id"));
      var resolved :- ResolveTab(AttrText(node.attributes, "tab"));
      Ok(LinkData(node, options, t, resolved))
  }

  /** The rewritten `data` as written: the URL ignores `url` and is not put into the props. */
  function LinkDataAsWritten(node: Node, options: LinkOptions, t: LinkType, resolved: Tab): NodeData
    requires node.Directive? && Fits(t, AttrText(node.attributes, "id"))
  {
    var attrs := node.attributes;
    var id := AttrText(attrs, "id");
    var href := LinkUrlAsWritten(t, id, AttrText(attrs, "url"), AttrText(attrs, "tab"), resolved);
    node.data.(
      hName := Some("a"),
      hProperties := Some(LinkPropsAsWritten(node, options, t)),
      hChildren := Some([Icon(node, options, LinkIcon(node, options, t, href)), HText(LinkText(node.children, t, id))]))
  }

  /** What `handleLinkDirective` as written makes of the node's `data`, or the error it throws. */
  function ResolveLinkAsWritten(node: Node, options: LinkOptions): Result<NodeData>
    requires node.Directive?
  {
    if node.kind == LeafDirective then Err(LeafError)
    else if node.kind == ContainerDirective then Err(ContainerError)
    else
      var t :- Classify(AttrText(node.attributes, "id"));
      var resolved :- ResolveTabAsWritten(AttrText(node.attributes, "tab"));
      Ok(LinkDataAsWritten(node, options, t, resolved))
  }

  /**
   * `handleLinkDirective(node, config)`: checks the node, classifies the id,
   * checks the tab, derives the text, the URL and the icon, merges the props
   * and writes the node's `data`; nothing is written when a check fails.
   */
  method HandleLinkDirective(node: DirectiveNode, options: LinkOptions) returns (outcome: Result<()>)
    modifies node
    ensures outcome == Outcome(ResolveLink(old(node.View()), options))
    ensures outcome.Ok? ==> node.data == ResolveLink(old(node.View()), options).value
    ensures !outcome.Ok? ==> node.data == old(node.data)
    ensures node.children == old(node.children)
  {
    if node.kind == LeafDirective {
      return Err(LeafError);
    }
    if node.kind == ContainerDirective {
      return Err(ContainerError);
    }
    var classified := ClassifyId(AttrText(node.attributes, "id"));
    if classified.Err? {
      return Err(classified.message);
    }
    var checked := CheckTab(AttrText(node.attributes, "tab"));
    if checked.Err? {
      return Err(checked.message);
    }
    WriteAnchor(node, options, classified.value, checked.value);
    return Ok(());
  }

  /** Text, URL, icon and props of a classified link with its tab, written to the node's `data`. */
  method WriteAnchor(node: DirectiveNode, options: LinkOptions, linkType: LinkType, resolvedTab: Tab)
    requires Fits(linkType, AttrText(node.attributes, "id"))
    modifies node
    ensures node.data == LinkData(old(node.View()), options, linkType, resolvedTab)
    ensures node.children == old(node.children)
  {
    var view := node.View();
    var id := AttrText(node.attributes, "id");
    var url := AttrText(node.attributes, "url");
    var img := AttrText(node.attributes, "img");
    var tab := AttrText(node.attributes, "tab");
    var attrs := Omit(node.attributes, ConsumedAttributes);

    var resolvedText := LinkText(node.children, linkType, id);

    var resolvedUrl, resolvedImg := ResolveUrlAndImage(linkType, id, url, img, tab, resolvedTab, FaviconUrl(options));
    assert resolvedUrl == LinkHref(view, linkType, resolvedTab);

    var aProperties := MergeProps(Some(ALayer(view, options)), Some(TypeLayer(linkType)), Some(attrs));
    node.data := node.data.(
      hName := Some("a"),
      hProperties := Some(Assign(Anchor(resolvedUrl), aProperties)),
      hChildren := Some([Icon(view, options, resolvedImg), HText(resolvedText)]));
  }

  /** The chain of `if`s that picks the link type: the first grammar the id satisfies. */
  method ClassifyId(id: string) returns (r: Result<LinkType>)
    ensures r == Classify(id)
  {
    if id == "" {
      return Err(MissingIdError);
    } else if IsGithubAccount(id) {
      return Ok(GithubAcct);
    } else if IsGithubRepo(id) {
      return Ok(GithubRepo);
    } else if IsNpmPackage(id) {
      return Ok(NpmPkg);
    } else if IsCustomUrl(id) {
      return Ok(CustomUrl);
    }
    return Err(InvalidIdError);
  }

  /** The tab check: a present tab must be listed, and an `org-` tab loses its prefix. */
  method CheckTab(tab: string) returns (r: Result<Tab>)
    ensures r == ResolveTab(tab)
  {
    var resolvedTab := Tab(false, "");
    if tab != "" {
      if !IsListedTab(tab) {
        return Err(InvalidTabError);
      }
      resolvedTab := TabOf(tab);
    }
    return Ok(resolvedTab);
  }

  /**
   * The URL and the icon image of a classified link, one branch per type; the
   * icon of a custom URL is the favicon of the resolved URL.
   */
  method ResolveUrlAndImage(linkType: LinkType, id: string, url: string, img: string, tab: string, resolvedTab: Tab, favicon: string)
    returns (resolvedUrl: string, resolvedImg: string)
    requires Fits(linkType, id)
    ensures resolvedUrl == LinkUrl(linkType, id, url, tab, resolvedTab)
    ensures resolvedImg == LinkImage(linkType, id, img, favicon, resolvedUrl)
  {
    if linkType == GithubAcct {
      var acct := id[1..];
      resolvedUrl := if url != "" then url else if tab != "" then TabUrl(acct, resolvedTab) else GithubSite + acct;
      resolvedImg := if img != "" then img else GithubSite + acct + ".png";
    }
    if linkType == GithubRepo {
      resolvedUrl := if url != "" then url else GithubSite + id;
      resolvedImg := if img != "" then img else GithubSite + RepoOwner(id) + ".png";
    }
    if linkType == NpmPkg {
      resolvedUrl := if url != "" then url else if tab != "" then NpmTabUrl(id, resolvedTab) else NpmPage(id);
      resolvedImg := if img != "" then img else ReplaceFirst(favicon, "{domain}", NpmDomain);
    }
    if linkType == CustomUrl {
      resolvedUrl := if url != "" then url else id;
      resolvedImg := if img != "" then img else ReplaceFirst(favicon, "{domain}", resolvedUrl);
    }
  }

  // ---------------------------------------------------------------------------
  // What the handler promises
  // ---------------------------------------------------------------------------

  /** A leaf directive, then a container directive, is rejected whatever its attributes and the options. */
  lemma LinkKindChecks(node: Node, options: LinkOptions)
    requires node.Directive?
    ensures node.kind == LeafDirective ==> ResolveLink(node, options) == Err(LeafError)
    ensures node.kind == ContainerDirective ==> ResolveLink(node, options) == Err(ContainerError)
    ensures node.kind == TextDirective ==> ResolveLink(node, options) != Err(LeafError)
    ensures node.kind == TextDirective ==> ResolveLink(node, options) != Err(ContainerError)
  {
    if node.kind == TextDirective {
      TextErrors(node, options);
      assert |LeafError| == 78 && |ContainerError| == 83;
      assert |MissingIdError| == 46 && |InvalidIdError| == 46 && |InvalidTabError| == 47;
    }
  }

  /** A text directive can only fail on its id or its tab. */
  lemma TextErrors(node: Node, options: LinkOptions)
    requires node.Directive? && node.kind == TextDirective
    ensures var r := ResolveLink(node, options);
      r.Err? ==> r.message == MissingIdError || r.message == InvalidIdError || r.message == InvalidTabError
  {
    ClassifyErrors(AttrText(node.attributes, "id"));
    TabErrors(AttrText(node.attributes, "tab"));
  }

  lemma ClassifyErrors(id: string)
    ensures Classify(id).Err? ==> Classify(id).message == MissingIdError || Classify(id).message == InvalidIdError
  {
  }

  lemma TabErrors(tab: string)
    ensures ResolveTab(tab).Err? ==> ResolveTab(tab).message == InvalidTabError
  {
  }

  /**
   * The id is checked before the tab: a missing id, then an id no grammar
   * accepts, then an unlisted tab is rejected, and nothing else is.
   */
  lemma LinkChecks(node: Node, options: LinkOptions)
    requires node.Directive? && node.kind == TextDirective
    ensures var id := AttrText(node.attributes, "id");
      var r := ResolveLink(node, options);
      && (r == Err(MissingIdError) <==> !Truthy(Lookup(node.attributes, "id")))
      && (r == Err(InvalidIdError)
          <==> id != "" && !IsGithubAccount(id) && !IsGithubRepo(id) && !IsNpmPackage(id) && !IsCustomUrl(id))
      && (r == Err(InvalidTabError)
          <==> Classify(id).Ok? && AttrText(node.attributes, "tab") != "" && !IsListedTab(AttrText(node.attributes, "tab")))
      && (r.Ok? <==> Classify(id).Ok? && ResolveTab(AttrText(node.attributes, "tab")).Ok?)
  {
  }

  /**
   * A present tab must be listed; an `org-` tab is one of the organisation
   * tabs of GitHub and loses its prefix; any other keeps its name.
   */
  lemma TabResolution(tab: string)
    ensures ResolveTab(tab).Ok? <==> tab == "" || IsListedTab(tab)
    ensures ResolveTab(tab).Ok? && tab != "" ==> ResolveTab(tab).value.name != ""
    ensures ResolveTab(tab).Ok? && ResolveTab(tab).value.isOrg
        ==> tab in GithubTabs && tab == "org-" + ResolveTab(tab).value.name
    ensures ResolveTab(tab).Ok? && !ResolveTab(tab).value.isOrg ==> ResolveTab(tab).value.name == tab
  {
    if tab != "" && IsListedTab(tab) && OrgTab(tab).Some? {
      assert tab[0] == 'o';
      assert forall n :: n in NpmTabs ==> |n| > 0 && n[0] != 'o';
    }
  }

  /** Without a label, an account shows its name: the id without `@`. */
  lemma AccountText(children: seq<Node>, id: string)
    requires IsGithubAccount(id) && LeadingText(children).None?
    ensures LinkText(children, GithubAcct, id) == id[1..]
    ensures id == "@" + LinkText(children, GithubAcct, id)
  {
  }

  /**
   * An account with neither `url` nor `tab` links to the plain profile and
   * shows its avatar; with a tab and no `url` it links to that tab.
   */
  lemma AccountUrls(id: string, img: string, tab: string, favicon: string)
    requires IsGithubAccount(id) && img == ""
    requires ResolveTab(tab).Ok?
    ensures var acct := id[1..];
      var resolved := ResolveTab(tab).value;
      && (tab == "" ==> LinkUrl(GithubAcct, id, "", tab, resolved) == GithubSite + acct)
      && (tab != "" && resolved.isOrg ==> LinkUrl(GithubAcct, id, "", tab, resolved) == GithubSite + "orgs/" + acct + "/" + tab[4..])
      && (tab != "" && !resolved.isOrg ==> LinkUrl(GithubAcct, id, "", tab, resolved) == GithubSite + acct + "?tab=" + tab)
      && LinkImage(GithubAcct, id, img, favicon, LinkUrl(GithubAcct, id, "", tab, resolved)) == GithubSite + acct + ".png"
  {
    TabResolution(tab);
  }

  /**
   * A repository `owner/repo` links to its page and shows the avatar of its
   * owner, not of the repository.
   */
  lemma RepoLink(owner: string, repo: string, favicon: string)
    requires IsGithubName(owner) && NoLineTerminator(repo) && !HasDoubleHyphen(owner + "/" + repo)
    requires !IsGithubAccount(owner + "/" + repo)
    ensures var id := owner + "/" + repo;
      && Classify(id) == Ok(GithubRepo)
      && LinkUrl(GithubRepo, id, "", "", Tab(false, "")) == GithubSite + owner + "/" + repo
      && LinkImage(GithubRepo, id, "", favicon, GithubSite + id) == GithubSite + owner + ".png"
  {
    RepoOwnerSpec(owner, repo);
  }

  /** An account id fits no other grammar, so its classification does not depend on the order. */
  lemma AccountOnlyAccount(id: string)
    requires IsGithubAccount(id)
    ensures !IsGithubRepo(id) && !IsNpmPackage(id) && !IsCustomUrl(id)
    ensures Classify(id) == Ok(GithubAcct)
  {
    AccountNotRepo(id);
    AccountNotNpm(id);
    AccountNotUrl(id);
  }

  lemma AccountNotRepo(id: string)
    requires IsGithubAccount(id)
    ensures !IsGithubRepo(id)
  {
    AccountChars(id);
    IndexOfCharAbsent(id, '/');
  }

  lemma AccountNotNpm(id: string)
    requires IsGithubAccount(id)
    ensures !IsNpmPackage(id)
  {
    AccountChars(id);
    IndexOfCharAbsent(id, '/');
  }

  lemma AccountNotUrl(id: string)
    requires IsGithubAccount(id)
    ensures !IsCustomUrl(id)
  {
    AccountChars(id);
    StripHttpKeeps(id);
    IndexOfCharAbsent(id, '/');
    assert id[..|id|] == id;
    NoDotNoHost(id);
  }

  /** An account id starts with `@` and holds neither `/` nor `.`. */
  lemma AccountChars(id: string)
    requires IsGithubAccount(id)
    ensures id[0] == '@' && '/' !in id && '.' !in id
  {
    forall i | 1 <= i < |id| ensures id[i] != '/' && id[i] != '.' {
      assert id[1..][i - 1] == id[i];
    }
  }

  /**
   * Because the npm grammar is tried before the URL grammar, a bare domain
   * such as `example.com` links to an npm package.
   */
  lemma BareDomainLinksToNpm(domain: string, tld: string)
    requires domain != [] && (forall i :: 0 <= i < |domain| ==> IsLower(domain[i]) || IsDigit(domain[i]))
    requires IsTld(tld) && |domain| + |tld| < 214
    ensures Classify(domain + "." + tld) == Ok(NpmPkg)
    ensures IsCustomUrl(domain + "." + tld)
  {
    var s := domain + "." + tld;
    BareDomainIsNpm(domain, tld);
    assert s[0] == domain[0];
    assert '/' !in s by {
      forall i | 0 <= i < |s| ensures s[i] != '/' {
        if i < |domain| {
          assert s[i] == domain[i];
        } else if i > |domain| {
          assert s[i] == tld[i - |domain| - 1];
        }
      }
    }
  }

  /** A successful resolution writes the anchor with the derived URL, icon and text. */
  lemma LinkResolved(node: Node, options: LinkOptions)
    requires node.Directive?
    requires ResolveLink(node, options).Ok?
    ensures node.kind == TextDirective
    ensures Classify(AttrText(node.attributes, "id")).Ok?
    ensures ResolveTab(AttrText(node.attributes, "tab")).Ok?
    ensures var t := Classify(AttrText(node.attributes, "id")).value;
      var resolved := ResolveTab(AttrText(node.attributes, "tab")).value;
      ResolveLink(node, options).value == LinkData(node, options, t, resolved)
    ensures var t := Classify(AttrText(node.attributes, "id")).value;
      var resolved := ResolveTab(AttrText(node.attributes, "tab")).value;
      var r := ResolveLink(node, options).value;
      && r.hName == Some("a")
      && r.hProperties == Some(Assign(Anchor(LinkHref(node, t, resolved)), Merge(LinkLayers(node, options, t))))
      && r.hChildren.Some? && |r.hChildren.value| == 2
  {
  }

  /** The resolved URL goes first and gives way to a truthy `href` of `aProps` or of the attributes. */
  lemma LinkHrefProp(node: Node, options: LinkOptions, t: LinkType, href: string)
    requires node.Directive?
    ensures var layers := LinkLayers(node, options, t);
      var props := LinkProps(node, options, t, href);
      && (Truthy(LastTruthy(layers, "href")) ==> Lookup(props, "href") == LastTruthy(layers, "href"))
      && (!Truthy(LastTruthy(layers, "href")) ==> Lookup(props, "href") == Str(href))
  {
    MergeLookup(LinkLayers(node, options, t), "href");
    AnchorLookup(href, Merge(LinkLayers(node, options, t)), "href");
  }

  /** The anchor of a link takes its `href` from the resolved URL when no layer gives one. */
  lemma LinkAnchorHref(node: Node, options: LinkOptions)
    requires node.Directive?
    requires ResolveLink(node, options).Ok?
    ensures var t := Classify(AttrText(node.attributes, "id")).value;
      var resolved := ResolveTab(AttrText(node.attributes, "tab")).value;
      var layers := LinkLayers(node, options, t);
      var props := ResolveLink(node, options).value.hProperties.value;
      && (!Truthy(LastTruthy(layers, "href")) ==> Lookup(props, "href") == Str(LinkHref(node, t, resolved)))
      && (Truthy(LastTruthy(layers, "href")) ==> Lookup(props, "href") == LastTruthy(layers, "href"))
  {
    LinkResolved(node, options);
    var t := Classify(AttrText(node.attributes, "id")).value;
    var resolved := ResolveTab(AttrText(node.attributes, "tab")).value;
    LinkHrefProp(node, options, t, LinkHref(node, t, resolved));
  }

  /**
   * The `id`, `url`, `img` and `tab` attributes are consumed: the anchor has
   * one of them only when `aProps` gives it a truthy value.
   */
  lemma LinkAttributesConsumed(node: Node, options: LinkOptions, t: LinkType, href: string, k: string)
    requires node.Directive?
    requires k in ConsumedAttributes
    ensures var user := CreateIfNeeded(options.aProps, node).GetOr([]);
      Lookup(LinkProps(node, options, t, href), k) == if Truthy(Lookup(user, k)) then Lookup(user, k) else Undefined
  {
    assert |k| <= 3;
    assert k != "href" && !IsClassKey(k);
    var layers := LinkLayers(node, options, t);
    assert layers == [Some(ALayer(node, options)), Some(TypeLayer(t)), Some(LinkAttrs(node))];
    LayersWithoutConsumed(node, options, t, k);
    MergeLowestOnly(ALayer(node, options), TypeLayer(t), LinkAttrs(node), k);
    AnchorLookup(href, Merge(layers), k);
  }

  /** Only the `aProps` layer can hold a consumed attribute. */
  lemma LayersWithoutConsumed(node: Node, options: LinkOptions, t: LinkType, k: string)
    requires node.Directive?
    requires k in ConsumedAttributes
    ensures Lookup(ALayer(node, options), k) == Lookup(CreateIfNeeded(options.aProps, node).GetOr([]), k)
    ensures Lookup(TypeLayer(t), k) == Undefined
    ensures Lookup(LinkAttrs(node), k) == Undefined
  {
    assert |k| <= 3;
    assert Keys(TypeLayer(t)) == ["data-link"];
    assert Keys(DefaultAProps) == ["className"];
  }

  /** `{href, ...merged}`: every key of `merged` wins over the resolved URL. */
  lemma AnchorLookup(href: string, merged: Props, k: string)
    ensures k != "href" ==> Lookup(Assign(Anchor(href), merged), k) == Lookup(merged, k)
    ensures k == "href" ==> Lookup(Assign(Anchor(href), merged), k) == if HasKey(merged, k) then Lookup(merged, k) else Str(href)
  {
    assert Keys(Anchor(href)) == ["href"];
  }

  /** Without a `className` of its own in `aProps`, the first class of every anchor is `rds-link`. */
  lemma LinkDefaultClass(node: Node, options: LinkOptions, t: LinkType, href: string)
    requires node.Directive?
    requires !HasKey(CreateIfNeeded(options.aProps, node).GetOr([]), "className")
    ensures var props := LinkProps(node, options, t, href);
      && Lookup(props, "className").Arr?
      && Lookup(props, "className").items != []
      && Lookup(props, "className").items[0] == Str(DefaultClass)
  {
    MergedDefaultClass(node, options, t);
    AnchorLookup(href, Merge(LinkLayers(node, options, t)), "className");
  }

  lemma DefaultClassIsWord()
    ensures Words(DefaultClass) == [DefaultClass]
  {
    WordOfNoSpace(DefaultClass);
  }

  lemma MergedDefaultClass(node: Node, options: LinkOptions, t: LinkType)
    requires node.Directive?
    requires !HasKey(CreateIfNeeded(options.aProps, node).GetOr([]), "className")
    ensures var v := Lookup(Merge(LinkLayers(node, options, t)), "className");
      v.Arr? && v.items != [] && v.items[0] == Str(DefaultClass)
  {
    var user := CreateIfNeeded(options.aProps, node).GetOr([]);
    var rest := [Some(TypeLayer(t)), Some(LinkAttrs(node))];
    DefaultClassIsWord();
    assert LinkLayers(node, options, t) == [Some(ALayer(node, options))] + rest;
    DefaultClassFirst(DefaultClass, user, rest);
  }

  /** The icon's background is the image, unless `spanProps` gives a `style` of its own. */
  lemma IconStyle(node: Node, options: LinkOptions, image: string)
    ensures var span := CreateIfNeeded(options.spanProps, node).GetOr([]);
      var icon := Icon(node, options, image);
      && icon.tagName == "span" && icon.children == []
      && Lookup(icon.properties, "style")
         == if HasKey(span, "style") then Lookup(span, "style") else Str("background-image: url(" + image + ")")
  {
  }

  // ---------------------------------------------------------------------------
  // The handler as written, against the corrected one
  // ---------------------------------------------------------------------------

  /**
   * As written, a link without a `tab` is rejected, whatever its id; with the
   * tab optional it resolves, and a present tab is checked as before.
   */
  lemma AbsentTabRejectedAsWritten(node: Node, options: LinkOptions)
    requires node.Directive? && node.kind == TextDirective
    requires Classify(AttrText(node.attributes, "id")).Ok?
    requires !Truthy(Lookup(node.attributes, "tab"))
    ensures ResolveLinkAsWritten(node, options) == Err(InvalidTabError)
    ensures ResolveLink(node, options).Ok?
  {
  }

  /** The optional tab differs from the tab as written only when the tab is absent. */
  lemma TabOptional(tab: string)
    ensures tab != "" ==> ResolveTab(tab) == ResolveTabAsWritten(tab)
    ensures ResolveTab("") == Ok(Tab(false, "")) && ResolveTabAsWritten("") == Err(InvalidTabError)
  {
  }

  /**
   * As written, the URL of an account or a package ignores `url`: once the
   * tab check has passed it is always the tab page. Corrected, a `url` wins.
   */
  lemma UrlIgnoredAsWritten(id: string, url: string, tab: string)
    requires IsGithubAccount(id)
    requires ResolveTabAsWritten(tab).Ok?
    ensures var resolved := ResolveTabAsWritten(tab).value;
      && LinkUrlAsWritten(GithubAcct, id, url, tab, resolved) == TabUrl(id[1..], resolved)
      && LinkUrlAsWritten(NpmPkg, id, url, tab, resolved) == NpmTabUrl(id, resolved)
      && (url != "" ==> LinkUrl(GithubAcct, id, url, tab, resolved) == url && LinkUrl(NpmPkg, id, url, tab, resolved) == url)
      && (url == "" ==> LinkUrl(GithubAcct, id, url, tab, resolved) == TabUrl(id[1..], resolved))
  {
  }

  /**
   * As written, `aProps` given as a function is spread, not called: the
   * anchor gets only the default class. Corrected, the function's props are
   * used.
   */
  lemma ComputedAPropsIgnoredAsWritten(node: Node, options: LinkOptions, k: string)
    requires options.aProps.ComputedProps?
    requires k != "className"
    ensures ALayerAsWritten(options) == DefaultAProps
    ensures Lookup(ALayer(node, options), k) == Lookup(options.aProps.compute(node).GetOr([]), k)
  {
    assert Keys(DefaultAProps) == ["className"];
  }

  /**
   * As written, the resolved URL is never written: without an `href` in the
   * attributes or in `aProps`, the anchor has none. Corrected, it is the
   * resolved URL.
   */
  lemma HrefMissingAsWritten(node: Node, options: LinkOptions, t: LinkType, href: string)
    requires node.Directive?
    requires !options.aProps.ComputedProps?
    requires !Truthy(Lookup(Spread(options.aProps), "href"))
    requires !Truthy(Lookup(node.attributes, "href"))
    ensures Lookup(LinkPropsAsWritten(node, options, t), "href") == Undefined
    ensures Lookup(LinkProps(node, options, t, href), "href") == Str(href)
  {
    AsWrittenWithoutHref(node, options, t);
    MergeLowestOnly(ALayerAsWritten(options), TypeLayer(t), LinkAttrs(node), "href");
    LinkHrefProp(node, options, t, href);
    LastTruthyOfThree(Some(ALayer(node, options)), Some(TypeLayer(t)), Some(LinkAttrs(node)), "href");
  }

  /** No layer gives a truthy `href`, and the `aProps` layer is the same either way. */
  lemma AsWrittenWithoutHref(node: Node, options: LinkOptions, t: LinkType)
    requires node.Directive?
    requires !options.aProps.ComputedProps?
    requires !Truthy(Lookup(Spread(options.aProps), "href"))
    requires !Truthy(Lookup(node.attributes, "href"))
    ensures ALayer(node, options) == ALayerAsWritten(options)
    ensures !Truthy(Lookup(ALayerAsWritten(options), "href"))
    ensures !Truthy(Lookup(TypeLayer(t), "href")) && !Truthy(Lookup(LinkAttrs(node), "href"))
  {
    assert ALayerAsWritten(options) == Assign(DefaultAProps, Spread(options.aProps));
    DefaultsWithoutHref(t);
    assert "href" !in ConsumedAttributes;
  }

  lemma DefaultsWithoutHref(t: LinkType)
    ensures Lookup(DefaultAProps, "href") == Undefined
    ensures Lookup(TypeLayer(t), "href") == Undefined
  {
    assert Keys(DefaultAProps) == ["className"];
    assert Keys(TypeLayer(t)) == ["data-link"];
  }

  /**
   * The handler as written succeeds exactly when the corrected one does and
   * a tab is given; with a tab, it throws what the corrected one throws.
   */
  lemma AsWrittenOutcome(node: Node, options: LinkOptions)
    requires node.Directive?
    ensures ResolveLinkAsWritten(node, options).Ok? <==> ResolveLink(node, options).Ok? && AttrText(node.attributes, "tab") != ""
    ensures var r := ResolveLinkAsWritten(node, options);
      r.Err? && AttrText(node.attributes, "tab") != "" ==> r == ResolveLink(node, options)
  {
    var tab := AttrText(node.attributes, "tab");
    TabOptional(tab);
    if node.kind == TextDirective && Classify(AttrText(node.attributes, "id")).Ok? && ResolveTab(tab).Ok? {
      LinkResolved(node, options);
    }
  }

  /**
   * With a tab, no `url` and `aProps` that is not a function, the anchor as
   * written and the corrected one have the same name and children, and
   * differ only by the `href` the corrected one puts first.
   */
  lemma AsWrittenDropsHref(node: Node, options: LinkOptions, t: LinkType, resolved: Tab)
    requires node.Directive? && Fits(t, AttrText(node.attributes, "id"))
    requires AttrText(node.attributes, "tab") != "" && AttrText(node.attributes, "url") == ""
    requires !options.aProps.ComputedProps?
    ensures var written := LinkDataAsWritten(node, options, t, resolved);
      var corrected := LinkData(node, options, t, resolved);
      && corrected.hName == written.hName == Some("a")
      && corrected.hChildren == written.hChildren
      && written.hProperties == Some(LinkPropsAsWritten(node, options, t))
      && corrected.hProperties == Some(Assign(Anchor(LinkHref(node, t, resolved)), written.hProperties.value))
  {
    var attrs := node.attributes;
    var href := LinkUrlAsWritten(t, AttrText(attrs, "id"), AttrText(attrs, "url"), AttrText(attrs, "tab"), resolved);
    assert href == LinkHref(node, t, resolved);
  }
}
