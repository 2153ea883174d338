/**
 * Directive-name matchers: `createDirectiveRegex` (src/utils.ts) and
 * `createImageDirectiveRegex` (src/directives/image.ts).
 *
 * A matcher is the regular expression `^(?:a1|a2|…)(?:-(\w+))?$` built from a
 * canonical directive name and the user's aliases (for images the suffix is
 * required: `^(?:a1|a2|…)-(\w+)$`). Each alias is escaped before it is put in
 * the alternation, so it only ever matches itself literally.
 */
module DirectiveRegex {
  import opened Basics
  import opened Strings

  /** The `alias` option: absent (`null`/`undefined`), one name, or an array of names. */
  datatype AliasOption = NoAlias | OneAlias(name: string) | AliasArray(names: seq<string>)

  function AliasNames(alias: AliasOption): (ns: seq<string>)
    ensures alias.NoAlias? ==> ns == []
    ensures alias.OneAlias? ==> ns == [alias.name]
    ensures alias.AliasArray? ==> ns == alias.names
  {
    match alias
    case NoAlias => []
    case OneAlias(n) => [n]
    case AliasArray(ns) => ns
  }

  /** The directive families, in the order the reserved-name check visits them. */
  const ReservedNames: seq<string> := ["image", "video", "badge", "link"]

  /** `xs.filter((y) => y !== x)`. */
  function Without(xs: seq<string>, x: string): (r: seq<string>)
    ensures forall y :: y in r <==> y in xs && y != x
  {
    if xs == [] then []
    else if xs[0] == x then Without(xs[1..], x)
    else [xs[0]] + Without(xs[1..], x)
  }

  /** The position of the first element of `candidates` that is also in `names`, or `|candidates|`. */
  function FirstSharedIndex(candidates: seq<string>, names: seq<string>): (i: nat)
    ensures i <= |candidates|
    ensures i < |candidates| ==> candidates[i] in names
    ensures forall j :: 0 <= j < i ==> candidates[j] !in names
  {
    if candidates == [] then 0
    else if candidates[0] in names then 0
    else 1 + FirstSharedIndex(candidates[1..], names)
  }

  /** The first element of `candidates` that is also in `names`. */
  function FirstShared(candidates: seq<string>, names: seq<string>): Option<string> {
    var i := FirstSharedIndex(candidates, names);
    if i < |candidates| then Some(candidates[i]) else None
  }

  // ---------------------------------------------------------------------------
  // Escaping
  // ---------------------------------------------------------------------------

  /** The characters of `[-/\\^$*+?.()|[\]{}]`, each escaped with a backslash in an alias. */
  predicate IsSyntaxChar(c: char) {
    c == '-' || c == '/' || c == '\\' || c == '^' || c == '$' || c == '*' || c == '+' || c == '?'
    || c == '.' || c == '(' || c == ')' || c == '|' || c == '[' || c == ']' || c == '{' || c == '}'
  }

  /** A pattern in which every syntax character is escaped, so it matches one fixed text. */
  predicate LiteralPattern(p: string)
    decreases |p|
  {
    if p == [] then true
    else if p[0] == '\\' then |p| >= 2 && IsSyntaxChar(p[1]) && LiteralPattern(p[2..])
    else !IsSyntaxChar(p[0]) && LiteralPattern(p[1..])
  }

  /** The text a literal pattern matches: each `\c` stands for `c`. */
  function Literal(p: string): string
    decreases |p|
  {
    if p == [] then []
    else if p[0] == '\\' && |p| >= 2 then [p[1]] + Literal(p[2..])
    else [p[0]] + Literal(p[1..])
  }

  /** `alias.replaceAll(/[-/\\^$*+?.()|[\]{}]/g, '\\$&')`. */
  function Escape(s: string): string {
    if s == [] then []
    else (if IsSyntaxChar(s[0]) then ['\\', s[0]] else [s[0]]) + Escape(s[1..])
  }

  /** An escaped alias is a literal pattern, and the text it matches is the alias itself. */
  lemma {:induction false} EscapeIsLiteral(s: string)
    ensures LiteralPattern(Escape(s))
    ensures Literal(Escape(s)) == s
  {
    if s != [] {
      EscapeIsLiteral(s[1..]);
      var rest := Escape(s[1..]);
      if IsSyntaxChar(s[0]) {
        assert Escape(s) == ['\\', s[0]] + rest;
        assert Escape(s)[2..] == rest;
      } else {
        assert Escape(s) == [s[0]] + rest;
        assert Escape(s)[1..] == rest;
      }
    }
  }

  function EscapeAll(aliases: seq<string>): (ps: seq<string>)
    ensures |ps| == |aliases| && forall i :: 0 <= i < |aliases| ==> ps[i] == Escape(aliases[i])
  {
    seq(|aliases|, i requires 0 <= i < |aliases| => Escape(aliases[i]))
  }

  // ---------------------------------------------------------------------------
  // Matching
  // ---------------------------------------------------------------------------

  /** A compiled directive-name regular expression: its escaped alternatives, and whether `-(\w+)` is required. */
  datatype Matcher = Matcher(alternatives: seq<string>, suffixRequired: bool)

  /** `name.match(regex)`: no match, a match with `match[1]` undefined, or a match capturing the suffix. */
  datatype NameMatch = NoMatch | Exact | Suffixed(suffix: string)

  /** Whether `name` is `alias` (when the suffix is optional) or `alias-word`. */
  function MatchAlias(alias: string, name: string, suffixRequired: bool): (m: NameMatch)
    ensures m == Exact <==> !suffixRequired && name == alias
    ensures m.Suffixed? ==> name == alias + "-" + m.suffix && m.suffix != [] && IsWord(m.suffix)
    ensures forall w :: name == alias + "-" + w && w != [] && IsWord(w) ==> m == Suffixed(w)
  {
    if !suffixRequired && name == alias then Exact
    else if |name| > |alias| + 1 && name[..|alias|] == alias && name[|alias|] == '-' && IsWord(name[|alias| + 1..]) then
      assert name == alias + "-" + name[|alias| + 1..];
      Suffixed(name[|alias| + 1..])
    else NoMatch
  }

  /** The position of the first alias that matches the whole name, or `|aliases|`. */
  function FirstMatchIndex(aliases: seq<string>, name: string, suffixRequired: bool): (i: nat)
    ensures i <= |aliases|
    ensures i < |aliases| ==> MatchAlias(aliases[i], name, suffixRequired) != NoMatch
  {
    if aliases == [] then 0
    else if MatchAlias(aliases[0], name, suffixRequired) != NoMatch then 0
    else 1 + FirstMatchIndex(aliases[1..], name, suffixRequired)
  }

  /** No alias before the first matching one matches the name. */
  lemma {:induction false} FirstMatchIndexFirst(aliases: seq<string>, name: string, suffixRequired: bool)
    ensures forall j :: 0 <= j < FirstMatchIndex(aliases, name, suffixRequired) ==> MatchAlias(aliases[j], name, suffixRequired) == NoMatch
  {
    if aliases != [] && MatchAlias(aliases[0], name, suffixRequired) == NoMatch {
      var rest := aliases[1..];
      FirstMatchIndexFirst(rest, name, suffixRequired);
      forall j | 0 < j <= FirstMatchIndex(rest, name, suffixRequired) ensures aliases[j] == rest[j - 1] {
      }
    }
  }

  /**
   * The alternation tries the aliases in order, and the whole match is that
   * of the first alias that matches the whole name.
   */
  function FirstAliasMatch(aliases: seq<string>, name: string, suffixRequired: bool): NameMatch {
    var i := FirstMatchIndex(aliases, name, suffixRequired);
    if i < |aliases| then MatchAlias(aliases[i], name, suffixRequired) else NoMatch
  }

  /** Running the compiled regular expression on a name. */
  function MatchName(m: Matcher, name: string): NameMatch {
    FirstPatternMatch(m.alternatives, name, m.suffixRequired)
  }

  function FirstPatternMatch(patterns: seq<string>, name: string, suffixRequired: bool): (m: NameMatch)
    ensures m.Suffixed? ==> m.suffix != [] && IsWord(m.suffix)
  {
    if patterns == [] then NoMatch
    else
      var m := MatchAlias(Literal(patterns[0]), name, suffixRequired);
      if m != NoMatch then m else FirstPatternMatch(patterns[1..], name, suffixRequired)
  }

  /** Escaped aliases match exactly what the raw aliases would match literally. */
  lemma {:induction false} EscapedMatch(aliases: seq<string>, name: string, suffixRequired: bool)
    ensures FirstPatternMatch(EscapeAll(aliases), name, suffixRequired) == FirstAliasMatch(aliases, name, suffixRequired)
  {
    if aliases != [] {
      EscapeIsLiteral(aliases[0]);
      assert EscapeAll(aliases)[1..] == EscapeAll(aliases[1..]);
      EscapedMatch(aliases[1..], name, suffixRequired);
    }
  }

  // ---------------------------------------------------------------------------
  // Building the matchers
  // ---------------------------------------------------------------------------

  function ReservedMessage(reserved: string, directiveName: string): string {
    "The alias '" + reserved + "' is reserved and cannot be used for the '" + directiveName + "' directive."
  }

  function ImageReservedMessage(reserved: string): string {
    "The alias '" + reserved + "' is reserved and cannot be used for the `image` directive."
  }

  /** The alias set: the canonical name, then the aliases, each once, in insertion order. */
  function AliasSet(directiveName: string, alias: AliasOption): seq<string> {
    Dedup([directiveName] + AliasNames(alias))
  }

  /** What `createDirectiveRegex(directiveName, alias)` returns or throws. */
  function DirectiveRegexSpec(directiveName: string, alias: AliasOption): Result<Matcher> {
    var aliases := AliasSet(directiveName, alias);
    match FirstShared(Without(ReservedNames, directiveName), aliases)
    case Some(reserved) => Err(ReservedMessage(reserved, directiveName))
    case None => Ok(Matcher(EscapeAll(aliases), false))
  }

  /**
   * `createDirectiveRegex(directiveName, alias)`: collects the aliases, throws
   * on the first reserved name of another family among them, and otherwise
   * builds the matcher.
   */
  method CreateDirectiveRegex(directiveName: string, alias: AliasOption) returns (r: Result<Matcher>)
    ensures r == DirectiveRegexSpec(directiveName, alias)
  {
    var aliases := AliasSet(directiveName, alias);
    var otherDirectives := Without(ReservedNames, directiveName);
    for k := 0 to |otherDirectives|
      invariant forall j :: 0 <= j < k ==> otherDirectives[j] !in aliases
    {
      if otherDirectives[k] in aliases {
        return Err(ReservedMessage(otherDirectives[k], directiveName));
      }
    }
    r := Ok(Matcher(EscapeAll(aliases), false));
  }

  /** `createImageDirectiveRegex(alias)`: the same alias set with `image` first, and a required suffix. */
  function ImageDirectiveRegex(alias: AliasOption): Result<Matcher> {
    var aliases := Dedup(["image"] + AliasNames(alias));
    match FirstShared(["video", "badge", "link"], aliases)
    case Some(reserved) => Err(ImageReservedMessage(reserved))
    case None => Ok(Matcher(EscapeAll(aliases), true))
  }

  // ---------------------------------------------------------------------------
  // What the matchers promise
  // ---------------------------------------------------------------------------

  /** The alias set holds the canonical name first and every alias, each once. */
  lemma AliasSetSpec(directiveName: string, alias: AliasOption)
    ensures var aliases := AliasSet(directiveName, alias);
      && aliases[0] == directiveName
      && Distinct(aliases)
      && (forall a :: a in aliases <==> a == directiveName || a in AliasNames(alias))
  {
    DedupSpec([directiveName] + AliasNames(alias), []);
    DedupSpec([directiveName], AliasNames(alias));
    assert [directiveName][..0] == [];
    assert Extend([], [directiveName]) == Extend([], []) + [directiveName];
  }

  /** The reserved names checked for each family, in order: the other three. */
  lemma OtherDirectives(directiveName: string)
    ensures directiveName == "image" ==> Without(ReservedNames, directiveName) == ["video", "badge", "link"]
    ensures directiveName == "link" ==> Without(ReservedNames, directiveName) == ["image", "video", "badge"]
    ensures directiveName !in ReservedNames ==> Without(ReservedNames, directiveName) == ReservedNames
  {
    var names := ReservedNames;
    assert names[1..] == ["video", "badge", "link"];
    assert names[1..][1..] == ["badge", "link"];
    assert names[1..][1..][1..] == ["link"];
    assert names[1..][1..][1..][1..] == [];
    if directiveName !in ReservedNames {
      assert Without(["link"], directiveName) == ["link"];
      assert Without(["badge", "link"], directiveName) == ["badge", "link"];
      assert Without(["video", "badge", "link"], directiveName) == ["video", "badge", "link"];
    }
  }

  /**
   * Building fails exactly when the alias set contains a reserved name of
   * another family, and the message names the first such name in the order
   * image, video, badge, link.
   */
  lemma DirectiveRegexOutcome(directiveName: string, alias: AliasOption)
    ensures DirectiveRegexSpec(directiveName, alias).Ok?
        <==> forall n :: n in ReservedNames && n != directiveName ==> n !in AliasSet(directiveName, alias)
    ensures DirectiveRegexSpec(directiveName, alias).Err? ==>
      exists i :: 0 <= i < |Without(ReservedNames, directiveName)|
        && Without(ReservedNames, directiveName)[i] in AliasSet(directiveName, alias)
        && DirectiveRegexSpec(directiveName, alias).message == ReservedMessage(Without(ReservedNames, directiveName)[i], directiveName)
        && forall j :: 0 <= j < i ==> Without(ReservedNames, directiveName)[j] !in AliasSet(directiveName, alias)
  {
    var others := Without(ReservedNames, directiveName);
    var aliases := AliasSet(directiveName, alias);
    var i := FirstSharedIndex(others, aliases);
    if i < |others| {
      assert others[i] in others;
      assert others[i] in aliases;
      assert DirectiveRegexSpec(directiveName, alias).message == ReservedMessage(others[i], directiveName);
      assert forall j :: 0 <= j < i ==> others[j] !in AliasSet(directiveName, alias);
    } else {
      forall n | n in ReservedNames && n != directiveName ensures n !in aliases {
        var k :| 0 <= k < |others| && others[k] == n;
      }
    }
  }

  /**
   * A built matcher accepts a name exactly when the name is an alias, or an
   * alias, `-` and a non-empty word; the capture is absent on an exact match
   * and comes from the first alias, in insertion order, that matches.
   */
  lemma DirectiveMatch(directiveName: string, alias: AliasOption, name: string)
    requires DirectiveRegexSpec(directiveName, alias).Ok?
    ensures var m := MatchName(DirectiveRegexSpec(directiveName, alias).value, name);
            var aliases := AliasSet(directiveName, alias);
      && m == FirstAliasMatch(aliases, name, false)
      && (m == NoMatch <==> forall a :: a in aliases ==> name != a && !(exists w :: name == a + "-" + w && w != [] && IsWord(w)))
      && (m == Exact ==> name in aliases)
      && (m.Suffixed? ==> exists a :: a in aliases && name == a + "-" + m.suffix && m.suffix != [] && IsWord(m.suffix))
  {
    var aliases := AliasSet(directiveName, alias);
    EscapedMatch(aliases, name, false);
    var i := FirstMatchIndex(aliases, name, false);
    FirstMatchIndexFirst(aliases, name, false);
    if i == |aliases| {
      forall a | a in aliases
        ensures name != a && !(exists w :: name == a + "-" + w && w != [] && IsWord(w))
      {
        var k :| 0 <= k < |aliases| && aliases[k] == a;
      }
    } else {
      var a := aliases[i];
      var m := MatchAlias(a, name, false);
      assert a in aliases;
      if m.Suffixed? {
        assert name == a + "-" + m.suffix && m.suffix != [] && IsWord(m.suffix);
      } else {
        assert name == a;
      }
    }
  }

  /** The image matcher has the same aliases and reserved check, but always requires a suffix. */
  lemma ImageRegexAgrees(alias: AliasOption, name: string)
    ensures ImageDirectiveRegex(alias).Ok? <==> DirectiveRegexSpec("image", alias).Ok?
    ensures ImageDirectiveRegex(alias).Ok? ==>
      && ImageDirectiveRegex(alias).value.alternatives == DirectiveRegexSpec("image", alias).value.alternatives
      && MatchName(ImageDirectiveRegex(alias).value, name) != Exact
      && (MatchName(DirectiveRegexSpec("image", alias).value, name) != Exact ==>
            MatchName(ImageDirectiveRegex(alias).value, name) == MatchName(DirectiveRegexSpec("image", alias).value, name))
  {
    ReservedOtherThanImage();
    if ImageDirectiveRegex(alias).Ok? {
      ImageMatchers(AliasSet("image", alias), name);
    }
  }

  /** The reserved names of the other families, seen from `image`. */
  lemma ReservedOtherThanImage()
    ensures Without(ReservedNames, "image") == ["video", "badge", "link"]
  {
    assert "video" != "image" && "badge" != "image" && "link" != "image";
    var rest: seq<string> := ["video", "badge", "link"];
    assert ReservedNames[1..] == rest;
    assert Without(rest[2..], "image") == ["link"];
    assert Without(rest[1..], "image") == ["badge", "link"];
  }

  /** Matching the escaped aliases with and without the required suffix. */
  lemma ImageMatchers(aliases: seq<string>, name: string)
    ensures FirstPatternMatch(EscapeAll(aliases), name, true) != Exact
    ensures FirstPatternMatch(EscapeAll(aliases), name, false) != Exact
        ==> FirstPatternMatch(EscapeAll(aliases), name, true) == FirstPatternMatch(EscapeAll(aliases), name, false)
  {
    EscapedMatch(aliases, name, true);
    EscapedMatch(aliases, name, false);
    RequiredSuffix(aliases, name);
  }

  /** Requiring the suffix changes nothing unless the optional-suffix pattern matched exactly. */
  lemma {:induction false} RequiredSuffix(aliases: seq<string>, name: string)
    ensures FirstAliasMatch(aliases, name, false) != Exact
        ==> FirstAliasMatch(aliases, name, true) == FirstAliasMatch(aliases, name, false)
  {
    if aliases != [] {
      RequiredSuffix(aliases[1..], name);
    }
  }
}
