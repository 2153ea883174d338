# remark-directive-sugar, modelled in Dafny

remark-directive-sugar is a remark plugin. It turns the directive nodes that
remark-directive adds to an mdast tree (`:::name` containers, `::name` leaves,
`:name` text directives) into rendering instructions for mdast-util-to-hast.
It writes `data.hName`, `data.hProperties` and `data.hChildren` on the node,
and rearranges its children where a figure needs it. This project models the
plugin's core and proves what it promises:

- `basics.dfy` (`Basics`): `Option`, `Result` with `Err(message)` for an
  `Error` thrown by the plugin and `TypeError` for a property read on
  `undefined`, and insertion-ordered sets (`Set.prototype.add`,
  `[...new Set(xs)]`).
- `strings.dfy` (`Strings`): the character classes of JavaScript regular
  expressions (`\w`, `\s`, `.`), `split`, `join`, `trim`, `split(/\s+/)`, and
  `String.prototype.replace` with a string pattern, including its `$`
  replacement patterns.
- `props.dfy` (`Props`): JavaScript property objects as ordered lists of
  unique keys, truthiness, spreads and `Object.assign`, and `mergeProps`.
  `mergeProps` appears both as a method with its loops and as the function
  that specifies it.
- `directive_regex.dfy` (`DirectiveRegex`): `createDirectiveRegex` and
  `createImageDirectiveRegex`. Each builds its matcher from an alias set, and
  the compiled regular expression is modelled by what it matches.
- `urls.dfy` (`Urls`): `processUrl`, and the grammars of the link
  directive's regular expressions: custom URL, GitHub account, GitHub
  repository, npm package and organisation tab.
- `mdast.dfy` (`Mdast`): nodes, `data`, hast output, `createIfNeeded`, and
  the `DirectiveNode` class whose `children` and `data` the handlers rewrite
  in place.
- `badge.dfy`, `video.dfy`, `link.dfy`, `image.dfy`: the four directive
  handlers. Each handler is
  - a specification function over the node (`ResolveBadge`, …,
    `ResolveImage`);
  - a method on `DirectiveNode` that performs the source's steps and is
    proved equal to that function;
  - lemmas stating the checks, their order and the output.

  The link handler has two versions. `ResolveLinkAsWritten` and the
  functions it calls follow `src/directives/link.ts` as written.
  `ResolveLink` is the corrected handler described under "## Findings".
  `Link.HandleLinkDirective`, its step methods and the link lemmas follow
  `ResolveLink`, and "## Left out" says so for each of them.
- `legacy.dfy`, `legacy_visitor.dfy`, `legacy_properties.dfy`: the
  transformer in `src/index.ts`. It dispatches every directive node by name
  to an inline branch (image, video, link, badge, typed badge, or any other
  element made with hastscript), and walks the tree with `unist-util-visit`.
  - `Legacy` holds the branches as functions over the node, and the walk.
  - `LegacyVisitor` holds the branches as methods on `DirectiveNode`, proved
    equal to those functions.
  - `LegacyProperties` holds the lemmas.

A handler either finishes or throws. `Mdast.Run` records which it did,
together with the children and `data` it leaves behind. So a throw after a
partial write is part of the model: the image handler writes `figure` before
the caption check, and the legacy typed badge writes `hName` before reading a
missing preset.

## Model

| member | source | states |
|---|---|---|
| Basics.ExtendSpec | src/utils.ts:66-83 | adding class tokens to the set keeps the earlier ones in place, adds exactly the new ones and never duplicates |
| Basics.DedupSpec | src/utils.ts:99 | `[...new Set(ts)]` holds every token once, in order of first occurrence; a longer input only appends |
| Basics.ExtendAppend | src/utils.ts:73-80 | adding two runs of tokens one after the other is adding their concatenation |
| Strings.IndexOfChar | src/utils.ts:110 | the index holds the separator, or is the end of the string |
| Strings.IndexOfCharFirst | src/utils.ts:110 | no separator comes before the index: it is the first occurrence |
| Strings.SplitOn | src/utils.ts:110 | `split` on one character gives at least one piece |
| Strings.SplitPieces | src/utils.ts:110 | no piece of a split contains the separator |
| Strings.SplitJoin | src/utils.ts:110-111 | joining the pieces of a split gives the string back |
| Strings.JoinSplit | src/utils.ts:110-111 | splitting a join of separator-free pieces gives the pieces back |
| Strings.TrimStart | src/index.ts:409 | the kept suffix does not start with `\s`, and only `\s` was dropped |
| Strings.TrimEnd | src/index.ts:409 | the kept prefix does not end with `\s`, and only `\s` was dropped |
| Strings.Words | src/utils.ts:73-75 | every class word of `split(/\s+/)` kept by the `if (c)` filter is non-empty and has no `\s` |
| Strings.WordsCoverText | src/utils.ts:73-75 | the words are exactly the non-space characters of the value, in order |
| Strings.WordOfNoSpace | src/utils.ts:73-75 | a class name without whitespace is one word |
| Strings.Find | src/directives/video.ts:76 | the first occurrence of the pattern: it occurs there and nowhere before |
| Strings.ReplaceFirst | src/directives/video.ts:76 | `replace` without an occurrence leaves the string as it is |
| Strings.ReplaceFirstLiteral | src/directives/link.ts:125 | with a `$`-free replacement, the first occurrence is replaced and the text around it kept |
| Strings.SubstituteLiteral | src/directives/link.ts:130 | a replacement without `$` is inserted verbatim |
| Props.Lookup | src/utils.ts:88 | reading a key gives the value stored under it, `undefined` when absent |
| Props.AttrText | src/directives/video.ts:43 | an attribute's text is non-empty exactly when the attribute is truthy, and is then its string |
| Props.Set | src/utils.ts:93 | writing a key sets that key and changes no other |
| Props.Omit | src/directives/video.ts:43 | the object rest drops exactly the named keys and keeps the others' values |
| Props.Assign | src/directives/image.ts:184 | `Object.assign` has the keys of both objects; the second object's values win |
| Props.Tokens | src/utils.ts:69-83 | the class tokens of a value are non-empty |
| Props.Overlay | src/utils.ts:85-97 | `class` and `className` are never copied as ordinary keys |
| Props.MergeLookup | src/utils.ts:55-102 | every other key gets the value of the highest-precedence layer where it is truthy, and is present exactly when some layer gives it |
| Props.MergePrecedence | src/utils.ts:55-58 | local props beat preset props, which beat global props |
| Props.MergeLowestOnly | src/utils.ts:85-97 | a key only the lowest layer can set keeps that layer's truthy value |
| Props.MergeClassName | src/utils.ts:90-99 | `class` is dropped; `className` is every class token of every layer, once each, present only when there is one |
| Props.DefaultClassFirst | src/utils.ts:85-99 | a default class put first in the lowest layer is the first class of the merge |
| Props.AddClasses | src/utils.ts:69-83 | adding a class value to the set adds its tokens in order |
| Props.MergeLayer | src/utils.ts:87-96 | one layer's loop copies its truthy non-class values over the result and adds its class tokens |
| Props.MergeProps | src/utils.ts:60-102 | the method's result is `Merge` of the three layers |
| Props.MergeConfigs | src/utils.ts:84-101 | the loop over the configs, each layer in turn, then the `className` array when any class was collected, yields `Merge` of the configs |
| DirectiveRegex.Without | src/utils.ts:22-24 | the other reserved names are the reserved names except the directive's own |
| DirectiveRegex.FirstSharedIndex | src/utils.ts:26-32 | the first reserved name found among the aliases, none before it |
| DirectiveRegex.EscapeIsLiteral | src/utils.ts:34-36 | an escaped alias is a literal pattern that matches the alias itself |
| DirectiveRegex.MatchAlias | src/utils.ts:38 | a name matches an alias exactly, or as `alias-word` with a non-empty word suffix captured |
| DirectiveRegex.FirstMatchIndex | src/utils.ts:34-38 | the alternation stops at an alias that matches the whole name, or fails after the last |
| DirectiveRegex.FirstMatchIndexFirst | src/utils.ts:34-38 | no alias before the one the alternation takes matches the name: the first match wins |
| DirectiveRegex.EscapedMatch | src/utils.ts:34-38 | matching the escaped aliases is matching the raw aliases literally |
| DirectiveRegex.CreateDirectiveRegex | src/utils.ts:9-39 | the method returns what `DirectiveRegexSpec` specifies: the matcher, or the reserved-alias error |
| DirectiveRegex.AliasSetSpec | src/utils.ts:13-20 | the alias set holds the directive name first and every alias, once each |
| DirectiveRegex.OtherDirectives | src/utils.ts:4-24 | the reserved names checked for each directive are the other three, in order |
| DirectiveRegex.DirectiveRegexOutcome | src/utils.ts:26-32 | building fails exactly when an alias is another directive's reserved name, and the message names the first one |
| DirectiveRegex.DirectiveMatch | src/utils.ts:34-38 | a built matcher accepts exactly an alias or `alias-word`; the capture is absent on an exact match and is the suffix otherwise |
| DirectiveRegex.ImageRegexAgrees | src/directives/image.ts:39-65 | the image matcher has the same aliases and reserved check, but requires the `-tag` suffix |
| DirectiveRegex.RequiredSuffix | src/directives/image.ts:64 | requiring the suffix changes a match only when the name is an alias itself |
| Urls.WordRun | src/utils.ts:109 | the leading run of `\w` characters |
| Urls.StripProtocol | src/utils.ts:109 | the protocol removal keeps a suffix of the URL |
| Urls.StripScheme | src/utils.ts:109 | a leading `scheme://` is removed, and nothing else |
| Urls.StripDoubleSlash | src/utils.ts:109 | a leading `//` is removed |
| Urls.SplitFirst | src/utils.ts:110-111 | the hostname is the text before the first `/`, and the path the text after it |
| Urls.ShortenSpec | src/utils.ts:110-117 | the host alone without a path; else host, `/`, at most `maxPathLength` characters of the path and `...`, also when nothing was cut |
| Urls.ProcessUrlShortPath | src/utils.ts:108-117 | an `https` URL whose path fits is shown as host and whole path, with `...` appended |
| Urls.StripHttp | src/directives/link.ts:6 | the result is a suffix of the input |
| Urls.StripHttpScheme | src/directives/link.ts:6 | a leading `https://`, else a leading `http://`, is removed, and any other input is kept whole |
| Urls.CustomUrlSound | src/directives/link.ts:6 | every URL built from a scheme, dot-separated labels, a top-level domain and a path is accepted |
| Urls.CustomUrlComplete | src/directives/link.ts:6 | every accepted string is built from such pieces |
| Urls.HostOfParts | src/directives/link.ts:6 | labels joined with a top-level domain form a host without `/` |
| Urls.RepoOwnerSpec | src/directives/link.ts:114-117 | `owner/repo` is a repository id and its capture is the owner |
| Urls.RepoDoubleHyphenAnywhere | src/directives/link.ts:8 | the look-ahead reaches into the repository name: a `--` anywhere after the owner rejects `owner/repo`, which is accepted without it |
| Urls.BareDomainIsNpm | src/directives/link.ts:6-10 | a bare lower-case domain such as `example.com` is both an npm package name and a custom URL |
| Urls.OrgTab | src/directives/link.ts:78-81 | a tab matches the organisation form exactly when it is `org-` and a word, and the capture is that word |
| Mdast.CreateIfNeededIgnoresNode | src/directives/image.ts:70-75 | a value that is not a function does not depend on the node |
| Mdast.WithChildren | src/directives/image.ts:138 | replacing children keeps the node's type and `data` |
| Badge.BadgeType | src/directives/badge.ts:31-47 | an accepted badge type is a preset |
| Badge.HandleBadgeDirective | src/directives/badge.ts:9-83 | the method throws what `ResolveBadge` throws and writes its `data`; nothing is written on a throw; children are untouched |
| Badge.BadgeKindChecks | src/directives/badge.ts:14-22 | a leaf, then a container directive, is rejected with its message; a text directive is not |
| Badge.BadgeTypeCheck | src/directives/badge.ts:33-47 | a name that does not match, or whose suffix is not a preset, is rejected; a bare name or a preset suffix passes |
| Badge.UntypedBadgeText | src/directives/badge.ts:49-58 | an untyped badge's text is its label, a badge without one is rejected, and the span holds exactly that text |
| Badge.TypedBadgeText | src/directives/badge.ts:50-58 | a typed badge shows the preset's text whatever its label, and is rejected exactly when that text is empty |
| Badge.BadgeResolved | src/directives/badge.ts:60-82 | on success the type is a preset, `hName` is `span`, `hProperties` is `Merge` of the preset, `spanProps` and attribute layers, and the single child is the badge text |
| Badge.BadgeAttributesWin | src/directives/badge.ts:68-72 | attributes beat preset props and `spanProps` for every non-class key |
| Badge.BadgeDataAttribute | src/directives/badge.ts:62-67 | a typed badge carries `data-badge: type` unless the preset props or the attributes override it |
| Badge.BadgeClassReplaced | src/directives/badge.ts:24-69 | a `spanProps.className` replaces the default class in the lowest layer |
| Badge.BadgeDefaultClass | src/directives/badge.ts:24-72 | without its own `className` in `spanProps`, every badge's first class is `rds-badge` |
| Video.HandleVideoDirective | src/directives/video.ts:17-97 | the method throws what `ResolveVideo` throws and writes its `data`; nothing is written on a throw; children are untouched |
| Video.WriteIframe | src/directives/video.ts:78-96 | title and merged props of a resolved video are written to `data` exactly as `VideoData` describes, children untouched |
| Video.VideoChecksOrder | src/directives/video.ts:22-53 | the checks, in order: text directive, container directive, a `url` platform in the options, a missing id |
| Video.VideoTypeCheck | src/directives/video.ts:55-72 | a suffix that is not a platform is rejected; so is a bare name whose id is not a URL, or a name that does not match |
| Video.PlatformsOverride | src/directives/video.ts:34-37 | user platforms replace built-in ones of the same name and keep the others |
| Video.VideoResolved | src/directives/video.ts:74-96 | on success the node is a leaf, `url` is not a platform, the id is present, the type and source resolve, and the data is the iframe with the title, the merged props and no children |
| Video.UrlNotPlatform | src/directives/video.ts:46-48 | once the options pass the check, `url` is never a platform |
| Video.VideoSourceValue | src/directives/video.ts:74-76 | the source is the id for a bare name, else the platform template with its first `{id}` replaced |
| Video.VideoSource | src/directives/video.ts:74-95 | a truthy `src` from `iframeProps` or the attributes replaces the computed source |
| Video.VideoTitleProp | src/directives/video.ts:78-95 | the title is the label, else `Video Player`, unless a truthy `title` prop replaces it |
| Video.VideoPropsLookup | src/directives/video.ts:84-95 | the computed `src` and `title` give way to the merged props |
| Video.VideoIdConsumed | src/directives/video.ts:43-91 | the `id` attribute is consumed: the iframe has an `id` only from `iframeProps` |
| Video.VideoDefaultClass | src/directives/video.ts:32-91 | without its own `className` in `iframeProps`, every iframe's first class is `rds-video` |
| Link.Classify | src/directives/link.ts:58-72 | an accepted id fits the grammar of its link type |
| Link.HandleLinkDirective | src/directives/link.ts:32-159 | the method throws what the corrected `ResolveLink` throws and writes its `data`; nothing is written on a throw; children are untouched |
| Link.ClassifyId | src/directives/link.ts:59-72 | the chain of tests picks the type `Classify` picks, and throws what it throws |
| Link.CheckTab | src/directives/link.ts:74-84 | the tab check gives `ResolveTab`: no tab when absent, a listed tab resolved, an unlisted one rejected (the corrected check, see Findings) |
| Link.WriteAnchor | src/directives/link.ts:86-158 | text, URL, icon and props of a classified link are written to `data` exactly as `LinkData` describes, children untouched |
| Link.ResolveUrlAndImage | src/directives/link.ts:99-131 | the method's URL and icon image are `LinkUrl` and `LinkImage` of the classified link |
| Link.LinkKindChecks | src/directives/link.ts:36-44 | a leaf, then a container directive, is rejected with its message; a text directive is not |
| Link.LinkChecks | src/directives/link.ts:58-84 | a missing id, then an id no grammar accepts, then an unlisted tab is rejected, and nothing else is |
| Link.TabResolution | src/directives/link.ts:74-84 | a present tab must be listed; an `org-` tab is an organisation tab without its prefix; any other keeps its name |
| Link.AccountText | src/directives/link.ts:86-97 | without a label, an account shows its name: the id without `@` |
| Link.AccountUrls | src/directives/link.ts:102-112 | an account with neither `url` nor `tab` links to its profile and shows its avatar; with a tab, to that tab |
| Link.RepoLink | src/directives/link.ts:114-118 | `owner/repo` links to its page and shows the owner's avatar |
| Link.AccountOnlyAccount | src/directives/link.ts:62-72 | an account id fits no other grammar, so the order of the tests does not matter for it |
| Link.BareDomainLinksToNpm | src/directives/link.ts:66-69 | npm is tried before the URL grammar, so a bare domain such as `example.com` becomes an npm link |
| Link.LinkResolved | src/directives/link.ts:133-158 | on success the node is a text directive, the id classifies and the tab resolves, and the data is the anchor: `hName` `a`, `href` before `Merge` of the layers, then the icon and the text as children |
| Link.LinkHrefProp | src/directives/link.ts:133-143 | the resolved URL gives way to a truthy `href` of `aProps` or of the attributes |
| Link.LinkAnchorHref | src/directives/link.ts:99-143 | the anchor's `href` is the resolved URL when no layer gives one |
| Link.LinkAttributesConsumed | src/directives/link.ts:56-138 | `id`, `url`, `img` and `tab` are consumed: the anchor has one only from `aProps` |
| Link.AnchorLookup | src/directives/link.ts:134-143 | every merged key wins over the resolved URL |
| Link.LinkDefaultClass | src/directives/link.ts:46-138 | without its own `className` in `aProps`, every anchor's first class is `rds-link` |
| Link.IconStyle | src/directives/link.ts:145-153 | the icon's background is the image, unless `spanProps` gives a `style` |
| Link.AbsentTabRejectedAsWritten | src/directives/link.ts:78-84 | as written, a link without `tab` is rejected; with the tab optional it resolves |
| Link.TabOptional | src/directives/link.ts:78-84 | the optional tab and the tab as written differ only on an absent tab |
| Link.UrlIgnoredAsWritten | src/directives/link.ts:104-124 | as written, an account or package URL ignores `url`; corrected, `url` wins |
| Link.ComputedAPropsIgnoredAsWritten | src/directives/link.ts:135 | as written, a function `aProps` is spread, not called, leaving only the default class; corrected, its props are used |
| Link.HrefMissingAsWritten | src/directives/link.ts:134-143 | as written, the anchor has no `href` unless a layer gives one; corrected, it is the resolved URL |
| Link.LinkUrlAsWritten | src/directives/link.ts:99-124 | as written, the URL is the corrected one when `url` is absent; with a tab, accounts and packages drop `url` and the other types keep it |
| Link.ALayerAsWritten | src/directives/link.ts:135 | as written, a function `aProps` leaves only the default class; any other value gives the corrected layer for every node |
| Link.LinkPropsAsWritten | src/directives/link.ts:133-143 | with an `aProps` that is not a function, the corrected props are the ones as written with the resolved `href` put first |
| Link.AsWrittenOutcome | src/directives/link.ts:32-159 | as written, the handler succeeds exactly when the corrected one does and a tab is given; with a tab, it throws what the corrected one throws |
| Link.AsWrittenDropsHref | src/directives/link.ts:99-143 | with a tab, no `url` and an `aProps` that is not a function, the anchor as written and the corrected one have the same `a` and children, and the corrected props are the written ones with the resolved `href` put first |
| Image.ImageTag | src/directives/image.ts:106-115 | the tag is accepted exactly when the name matches with a suffix among the valid tags, and is that suffix |
| Image.Images | src/directives/image.ts:120 | the images found, in tree order |
| Image.ImagesAppend | src/directives/image.ts:120 | the images of two runs of nodes are the images of each, in order |
| Image.Touch | src/directives/image.ts:121-125 | setting the image props keeps the image's URL and alt text |
| Image.MarkFirstImage | src/directives/image.ts:117-129 | an image is found exactly when there is one, and without one nothing changes |
| Image.MarkedImages | src/directives/image.ts:117-129 | only the first image in tree order gets `imgProps`; the others are unchanged |
| Image.FlattenFailure | src/directives/image.ts:136-145 | the `reduce` fails exactly when a child is an empty paragraph, and then with a `TypeError` |
| Image.FlattenImages | src/directives/image.ts:136-145 | flattening keeps every image, in order |
| Image.FlattenIdentity | src/directives/image.ts:136-145 | children without a paragraph led by an image are left as they are |
| Image.HandleImageDirective | src/directives/image.ts:92-199 | the method ends as `ResolveImage` does: same outcome, children and `data`, partial writes included |
| Image.FlattenChildren | src/directives/image.ts:136-145 | the loop over the children gives what `Flatten` gives, failing with a `TypeError` at an empty paragraph |
| Image.BuildElement | src/directives/image.ts:151-198 | the figure or element step writes the node as `ImageElement` does, the partial write before a missing caption included |
| Image.ImageKindChecks | src/directives/image.ts:97-115 | a text, then a leaf directive, then a name without a valid tag is rejected before anything is written |
| Image.MissingImage | src/directives/image.ts:117-131 | with a valid tag, the image is missing exactly when no image is under the directive, and nothing is written |
| Image.ElementNotMissing | src/directives/image.ts:152-198 | after the image check, nothing reports a missing image |
| Image.ElementOutput | src/directives/image.ts:133-198 | a non-figure tag fails only on an empty paragraph; on success the children are exactly the flattened ones, the tag becomes `hName`, the props are the element props with the attributes assigned over them, and the images are kept with only the first touched |
| Image.FigureOutput | src/directives/image.ts:152-190 | a figure writes `figure` with the figure props, and appends after the remaining children a `figcaption` with the caption and the caption props with the attributes assigned over them |
| Image.CaptionOrder | src/directives/image.ts:160-176 | the caption is a label paragraph led by text, which is removed; else a leading image's alt; else missing |
| Image.FigureFromAlt | src/directives/image.ts:136-190 | `:::image-figure` around one `![alt](url)` becomes the image and a caption of its alt; an empty alt throws with only the image left |
| Legacy.FigureBranch | src/index.ts:77-119 | `figure` is written before the caption check, and a failed check leaves the children |
| Legacy.ImageBranch | src/index.ts:66-144 | only `image-figure` changes the children |
| Legacy.VideoBranch | src/index.ts:147-207 | the video branch never changes the children |
| Legacy.LinkBranch | src/index.ts:209-377 | the link branch never changes the children |
| Legacy.BadgeBranch | src/index.ts:379-436 | the badge branch never changes the children |
| Legacy.TypedBadgeBranch | src/index.ts:438-497 | the typed badge branch never changes the children |
| Legacy.VisitedSmaller | src/index.ts:77-119 | every child the visitor leaves is smaller than the directive, so the walk into them ends |
| LegacyProperties.DispatchImage | src/index.ts:66-144 | a name the image pattern matches takes the image branch, whatever else it looks like; text and leaf forms are rejected |
| LegacyProperties.DispatchVideo | src/index.ts:146-207 | `video` accepts only a leaf directive and renders a `div` |
| LegacyProperties.DispatchLink | src/index.ts:209-377 | `link` accepts only a text directive and renders an anchor or a span, or writes nothing |
| LegacyProperties.DispatchBadge | src/index.ts:379-436 | `badge` accepts only a text directive and renders a span |
| LegacyProperties.DispatchTypedBadge | src/index.ts:438-497 | a `badge-*` name accepts only a text directive of a valid type and renders a span |
| LegacyProperties.DispatchCommon | src/index.ts:498-503 | any other name becomes hastscript's element of that name and attributes, and never throws |
| LegacyProperties.ImageAnchor | src/index.ts:120-132 | `image-a` succeeds exactly with a truthy `href`; its props are `target: '_blank'` overridden by the attributes |
| LegacyProperties.FigureCaption | src/index.ts:87-119 | the caption is a label paragraph led by text, which is shifted off; else the alt of an image leading the first paragraph; else the figure throws |
| LegacyProperties.LegacyVideoSource | src/index.ts:158-181 | the source is the platform URL of the first id attribute that is set, and `iframeSrc` only when none is |
| LegacyProperties.LegacyVideoChecks | src/index.ts:162-204 | a leaf video throws exactly when no id attribute is set; otherwise the iframe gets the source |
| LegacyProperties.LegacyLinkChecks | src/index.ts:230-264 | the checks, in order: label or `id`, `style`, `tab`; an organisation tab sets `isOrg` and loses its prefix |
| LegacyProperties.LinkWithoutId | src/index.ts:267-273 | without an `id`, the `link` is the target, the style defaults to square and the image to the host's favicon |
| LegacyProperties.LinkToAccount | src/index.ts:276-287 | an account links to `link`, else its organisation tab page, else its profile with `?tab=`; rounded style and its name by default |
| LegacyProperties.LinkToRepo | src/index.ts:288-296 | a repository links to `link`, else its page; square style and the id as text by default |
| LegacyProperties.LinkTargetErrors | src/index.ts:297-306 | an id of neither form throws, and so does a missing id without `link` |
| LegacyProperties.LinkAnchor | src/index.ts:308-332 | a square or rounded link is an anchor to the target, with its class, the image span and the text |
| LegacyProperties.SplitOneColor | src/index.ts:408-411 | one colour serves as both light and dark |
| LegacyProperties.SplitTwoColors | src/index.ts:412-413 | `light\|dark` gives the two trimmed colours |
| LegacyProperties.SplitThreeColors | src/index.ts:414-418 | three or more colours throw |
| LegacyProperties.LegacyBadge | src/index.ts:397-433 | a label is required; without `color` both colours are the default; the span holds the label |
| LegacyProperties.LegacyTypedBadge | src/index.ts:451-492 | the colour is the attribute's, else the preset's, else the default; the text is always the preset's |
| LegacyProperties.LegacyTypedBadgeNoPreset | src/index.ts:451-492 | a valid badge type without a preset always throws a `TypeError`: before any write without a colour attribute, and after `hName` and `hProperties` are written with a valid one |
| LegacyProperties.WalkIdentity | src/index.ts:55-507 | a tree without directive nodes comes out of the walk unchanged |
| LegacyVisitor.VisitImage | src/index.ts:66-144 | the image branch on the node: outcome, children and `data` are `ImageBranch`'s |
| LegacyVisitor.VisitVideo | src/index.ts:147-207 | the video branch with its `for … break` loop ends as `VideoBranch` |
| LegacyVisitor.CheckLink | src/index.ts:221-264 | the label, style and tab checks give `LinkChecks` |
| LegacyVisitor.ResolveLinkTarget | src/index.ts:266-306 | the target resolution gives `LinkTarget` |
| LegacyVisitor.VisitLink | src/index.ts:209-377 | the link branch on the node ends as `LinkBranch` |
| LegacyVisitor.SplitColors | src/index.ts:408-418 | the colour split gives `SplitColor` |
| LegacyVisitor.VisitBadge | src/index.ts:379-436 | the badge branch on the node ends as `BadgeBranch` |
| LegacyVisitor.VisitTypedBadge | src/index.ts:438-497 | the typed badge branch on the node ends as `TypedBadgeBranch` |
| LegacyVisitor.VisitDirective | src/index.ts:56-503 | the visitor on one directive node ends as `Visit`: the first branch its name selects |

## Left out

- The plugin entry and option handling (`getConfig`, defaults, types) are
  not part of this model. The handlers receive their options as values.
- `src/index.ts` imports constants, regular expressions and the platform URL
  builders from a utilities module. That module is not part of this model:
  they are fields of `Legacy.LegacyConfig`. So are `new URL(…).hostname`
  (with its throw) and hastscript's `h`.
- The four handlers in `src/directives/` are not called from `src/index.ts`.
  They are modelled on their own, with the regular expression built for each
  as a parameter.
- `structuredClone` is the identity on the plain property objects it copies.
  Aliasing between an options object and a node's props is not modelled.
- Absent `data` and an empty `data` object are the same value. So
  `node.data ||= {}` alone is not a change.
- JavaScript objects keep integer-like keys in numeric order ahead of the
  others. Props keep plain insertion order.
- Attribute values are strings, `null` or `undefined`. Numbers and booleans
  appear only in option props.
- `unist-util-visit` is modelled as a recursive walk (`Legacy.Walk`). That
  walk visits a node, then the children it has after the visitor ran. Walking
  a tree containing directives has no lemma beyond `VisitDirective` and
  `WalkIdentity`.
- `Image.MarkFirstImage` returns the updated tree. The in-place mutation of
  the image node object inside the tree is not modelled.
- Regular expressions are modelled by the strings they accept, for the
  patterns the plugin uses. There is no general regex engine.
- Link.HandleLinkDirective: follows the corrected `ResolveLink` of "## Findings", not link.ts as written. It accepts an absent tab, lets `url` win, calls a function `aProps` and writes `href`. The code as written is `Link.ResolveLinkAsWritten`.
- Link.WriteAnchor: writes the corrected `LinkData`, with `href` and a called `aProps`. The data as written is `Link.LinkDataAsWritten`.
- Link.CheckTab: is the optional-tab check `ResolveTab`. The check as written is `Link.ResolveTabAsWritten`.
- Link.ResolveUrlAndImage: gives `url` priority, as `LinkUrl` does. The URL as written is `Link.LinkUrlAsWritten`.
- Link.LinkChecks: states the checks of the corrected handler, in which an absent tab is accepted.
- Link.TabResolution: states the optional-tab check, in which an absent tab resolves.
- Link.LinkResolved: unfolds the corrected `ResolveLink`, whose anchor carries an `href`.
- Link.LinkHrefProp: is about the corrected `LinkProps`. As written there is no `href` unless a layer gives one (`Link.HrefMissingAsWritten`).
- Link.LinkAnchorHref: is about the corrected handler's `href`.
- Link.LinkAttributesConsumed: is about the corrected `aProps` layer, which calls a function `aProps`. As written its props are ignored (`Link.ComputedAPropsIgnoredAsWritten`).
- Link.AnchorLookup: is about the corrected anchor, whose `href` comes first.
- `Strings.IsSpace` and the `\w` class follow ECMAScript without the `u`
  flag. Surrogate pairs are single characters.

## Findings

| source | as written | input that shows it | evidently intended | confidence | as-written member | corrected member |
|---|---|---|---|---|---|---|
| src/directives/link.ts:78 | `tab && (…)` sends an absent `tab` to the throwing branch | `:link{id="@octocat"}`: rejected with "The `tab` is invalid." | `tab` is optional; only a present tab must be listed | not executed | Link.AbsentTabRejectedAsWritten | Link.TabOptional |
| src/directives/link.ts:104-109 | `url \|\| tab ? tabUrl : plainUrl` tests `url` but never uses it | `:link{id="@octocat" url="https://example.com" tab="stars"}` computes the stars-tab URL and ignores `url` | a truthy `url` is the link target, as for repositories and custom URLs | not executed | Link.UrlIgnoredAsWritten | Link.LinkUrl |
| src/directives/link.ts:135 | `createIfNeeded({...defaultAProps, ...aProps}, node)` spreads `aProps` before testing it for a function | `aProps: (node) => ({ title: node.name })` with `:link[x]{id="@octocat" tab="stars"}` gives an anchor without `title` | a function `aProps` is called with the node, as for `spanProps` | not executed | Link.ComputedAPropsIgnoredAsWritten | Link.ALayer |
| src/directives/link.ts:134-143 | `resolvedUrl` is computed but never written to the props | `:link[x]{id="@octocat" tab="stars"}` renders an `a` without `href` | the anchor's `href` is the resolved URL | not executed | Link.HrefMissingAsWritten | Link.LinkProps |
