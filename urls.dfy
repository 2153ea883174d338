/**
 * URL shortening (`processUrl`, src/utils.ts) and the identifier grammars the
 * link and video directives test their `id` against (src/directives/link.ts,
 * src/directives/video.ts). Each regular expression is written out as a
 * predicate over the whole string.
 */
module Urls {
  import opened Basics
  import opened Strings

  // ---------------------------------------------------------------------------
  // processUrl
  // ---------------------------------------------------------------------------

  /** The length of the run of `\w` characters at the start of `s`. */
  function WordRun(s: string): (n: nat)
    ensures n <= |s| && IsWord(s[..n])
    ensures n < |s| ==> !IsWordChar(s[n])
  {
    if s == [] || !IsWordChar(s[0]) then 0
    else
      var n := 1 + WordRun(s[1..]);
      assert s[..n] == [s[0]] + s[1..][..n - 1];
      n
  }

  /** `url.replace(/(^\w+:|^)\/\//, '')`: drops a leading `scheme://` or `//`. */
  function StripProtocol(url: string): (r: string)
    ensures |r| <= |url| && r == url[|url| - |r|..]
    ensures r != url ==>
      var p := url[..|url| - |r|];
      p == "//" || (|p| > 3 && p[|p| - 3..] == "://" && IsWord(p[..|p| - 3]))
  {
    var k := WordRun(url);
    if k > 0 && StartsWith(url[k..], "://") then
      assert url[..k + 3] == url[..k] + "://";
      url[k + 3..]
    else if StartsWith(url, "//") then url[2..]
    else url
  }

  /** A leading `scheme://` (the scheme being word characters) is removed, and nothing else. */
  lemma StripScheme(scheme: string, rest: string)
    requires scheme != [] && IsWord(scheme)
    ensures StripProtocol(scheme + "://" + rest) == rest
  {
    var url := scheme + "://" + rest;
    assert url[..|scheme|] == scheme;
    assert url[|scheme|] == ':';
    assert WordRun(url) == |scheme|;
    assert url[|scheme|..][..3] == "://";
    assert url[|scheme| + 3..] == rest;
  }

  /** A leading `//` is removed. */
  lemma StripDoubleSlash(rest: string)
    ensures StripProtocol("//" + rest) == rest
  {
    var url := "//" + rest;
    assert WordRun(url) == 0;
    assert url[..2] == "//";
    assert url[2..] == rest;
  }

  /** The default `maxPathLength`. */
  const DefaultMaxPathLength: int := 14

  /** The path after the first `/`: `pathParts.join('/')`, empty when there is no `/`. */
  function PathOf(parts: seq<string>): string
    requires |parts| >= 1
  {
    if |parts| == 1 then "" else Join(parts[1..], '/')
  }

  /** `processUrl(url, maxPathLength)` */
  function ProcessUrl(url: string, maxPathLength: int): string {
    Shorten(StripProtocol(url), maxPathLength)
  }

  /** The rest of `processUrl` once the protocol is gone: hostname, then the path cut to length. */
  function Shorten(rest: string, maxPathLength: int): string {
    var parts := SplitOn(rest, '/');
    var hostname := parts[0];
    var path := PathOf(parts);
    var shortenedPath :=
      if |path| > maxPathLength then path[..if maxPathLength < 0 then 0 else maxPathLength] else path;
    hostname + (if shortenedPath != "" then "/" + shortenedPath + "..." else "")
  }

  /** Splitting on `/` and joining the tail gives the text before and after the first `/`. */
  lemma SplitFirst(s: string)
    ensures var k := IndexOfChar(s, '/');
      && SplitOn(s, '/')[0] == s[..k]
      && PathOf(SplitOn(s, '/')) == if k < |s| then s[k + 1..] else ""
  {
    var k := IndexOfChar(s, '/');
    if k < |s| {
      SplitJoin(s[k + 1..], '/');
      SplitAt(s, '/', k);
      assert SplitOn(s, '/')[1..] == SplitOn(s[k + 1..], '/');
    } else {
      SplitNone(s, '/');
      assert s[..k] == s;
    }
  }

  /**
   * After the protocol is stripped, the host is everything before the first
   * `/`. Without a path (or with no room for one) the result is the host alone;
   * otherwise it is host, `/`, at most `maxPathLength` characters of the
   * path, and `...` — also when nothing was cut.
   */
  lemma ShortenSpec(rest: string, maxPathLength: int)
    ensures var k := IndexOfChar(rest, '/');
            var path := if k < |rest| then rest[k + 1..] else "";
            var r := Shorten(rest, maxPathLength);
      && (path == "" || maxPathLength <= 0 ==> r == rest[..k])
      && (path != "" && 0 < maxPathLength ==>
            r == rest[..k] + "/" + path[..if |path| <= maxPathLength then |path| else maxPathLength] + "...")
  {
    SplitFirst(rest);
  }

  /** A path that fits is kept whole, and `...` is still appended. */
  lemma ProcessUrlShortPath(host: string, path: string)
    requires '/' !in host && path != [] && |path| <= DefaultMaxPathLength
    ensures ProcessUrl("https://" + host + "/" + path, DefaultMaxPathLength) == host + "/" + path + "..."
  {
    var rest := host + "/" + path;
    var url := "https://" + host + "/" + path;
    assert url == "https" + "://" + rest;
    StripScheme("https", rest);
    assert StripProtocol(url) == rest;
    ShortHost(host, path);
  }

  lemma ShortHost(host: string, path: string)
    requires '/' !in host && path != [] && |path| <= DefaultMaxPathLength
    ensures Shorten(host + "/" + path, DefaultMaxPathLength) == host + "/" + path + "..."
  {
    var rest := host + "/" + path;
    IndexAfterPrefix(host, '/', path);
    assert rest[..|host|] == host;
    assert rest[|host| + 1..] == path;
    ShortenSpec(rest, DefaultMaxPathLength);
    assert path[..|path|] == path;
  }

  // ---------------------------------------------------------------------------
  // Character classes of the identifier grammars
  // ---------------------------------------------------------------------------

  /** `[\w-]` */
  predicate IsLabelChar(c: char) { IsWordChar(c) || c == '-' }

  /** `[a-z0-9._-]` */
  predicate IsNpmChar(c: char) { IsLower(c) || IsDigit(c) || c == '.' || c == '_' || c == '-' }

  // ---------------------------------------------------------------------------
  // Custom URL: /^(?:https?:\/\/)?(?:[\w-]+\.)+[a-z]{2,}(?:\/[^\s]*)?$/
  // ---------------------------------------------------------------------------

  /** `[\w-]+` */
  predicate IsLabel(l: string) { l != [] && forall i :: 0 <= i < |l| ==> IsLabelChar(l[i]) }

  /** `[a-z]{2,}` */
  predicate IsTld(t: string) { |t| >= 2 && forall i :: 0 <= i < |t| ==> IsLower(t[i]) }

  /** `(?:[\w-]+\.)+[a-z]{2,}`: at least two dot-separated pieces, the last a top-level domain. */
  predicate IsHost(h: string) {
    var parts := SplitOn(h, '.');
    && |parts| >= 2
    && (forall i :: 0 <= i < |parts| - 1 ==> IsLabel(parts[i]))
    && IsTld(parts[|parts| - 1])
  }

  /** The optional `https?://` prefix is taken whenever it is there. */
  function StripHttp(s: string): (r: string)
    ensures |r| <= |s| && r == s[|s| - |r|..]
  {
    if StartsWith(s, "https://") then s[8..]
    else if StartsWith(s, "http://") then s[7..]
    else s
  }

  /** `customUrlRegex.test(s)` */
  predicate IsCustomUrl(s: string) {
    var body := StripHttp(s);
    var k := IndexOfChar(body, '/');
    IsHost(body[..k]) && NoSpace(body[k..])
  }

  /** The pieces the regular expression reads: scheme, labels, top-level domain and path. */
  predicate CustomUrlOf(s: string, scheme: string, labels: seq<string>, tld: string, path: string) {
    && (scheme == "" || scheme == "http://" || scheme == "https://")
    && |labels| >= 1 && (forall l :: l in labels ==> IsLabel(l))
    && IsTld(tld)
    && (path == [] || (path[0] == '/' && NoSpace(path)))
    && s == scheme + Join(labels + [tld], '.') + path
  }

  predicate HostChars(s: string) { forall i :: 0 <= i < |s| ==> IsLabelChar(s[i]) || s[i] == '.' }

  lemma {:induction false} JoinHostChars(parts: seq<string>)
    requires |parts| >= 1 && forall p :: p in parts ==> HostChars(p)
    ensures HostChars(Join(parts, '.'))
  {
    if |parts| > 1 {
      JoinHostChars(parts[1..]);
      assert parts[0] in parts;
    }
  }

  /** The host part built from labels and a top-level domain is a host, and has no `/`. */
  lemma HostOfParts(labels: seq<string>, tld: string)
    requires |labels| >= 1 && (forall l :: l in labels ==> IsLabel(l)) && IsTld(tld)
    ensures var h := Join(labels + [tld], '.');
      IsHost(h) && HostChars(h) && '/' !in h
  {
    var parts := labels + [tld];
    PiecesHostChars(labels, tld);
    JoinHostChars(parts);
    JoinSplit(parts, '.');
    var h := Join(parts, '.');
    assert SplitOn(h, '.') == parts;
    forall i | 0 <= i < |parts| - 1 ensures IsLabel(parts[i]) {
      assert parts[i] == labels[i];
      assert labels[i] in labels;
    }
    assert parts[|parts| - 1] == tld;
    HostCharsNoSlash(h);
  }

  lemma PiecesHostChars(labels: seq<string>, tld: string)
    requires (forall l :: l in labels ==> IsLabel(l)) && IsTld(tld)
    ensures forall p :: p in labels + [tld] ==> HostChars(p) && '.' !in p
  {
    forall p | p in labels + [tld] ensures HostChars(p) && '.' !in p {
      if p in labels {
        assert IsLabel(p);
        assert forall i :: 0 <= i < |p| ==> IsLabelChar(p[i]);
      } else {
        assert p == tld;
        assert forall i :: 0 <= i < |p| ==> IsLower(p[i]);
      }
    }
  }

  lemma HostCharsNoSlash(h: string)
    requires HostChars(h)
    ensures '/' !in h
  {
    forall i | 0 <= i < |h| ensures h[i] != '/' {
      assert IsLabelChar(h[i]) || h[i] == '.';
    }
  }

  /** A host followed by nothing or by a path does not start with `http://` or `https://`. */
  lemma NoHttpPrefix(h: string, path: string)
    requires HostChars(h) && (path == [] || path[0] == '/')
    ensures !StartsWith(h + path, "http://") && !StartsWith(h + path, "https://")
  {
    var body := h + path;
    if StartsWith(body, "http://") {
      assert body[..7][4] == ':';
      NoColonAtFour(h, path);
    }
    if StartsWith(body, "https://") {
      assert body[..8][4] == 's';
      assert body[..8][..5] == "https";
      assert body[..8][5] == ':';
      NoColonAtFive(h, path);
    }
  }

  lemma NoColonAtFour(h: string, path: string)
    requires HostChars(h) && (path == [] || path[0] == '/')
    requires |h + path| > 4 && (h + path)[..4] == "http"
    ensures (h + path)[4] != ':'
  {
    var body := h + path;
    forall i | 0 <= i < 4 ensures body[i] != '/' {
      assert body[i] == body[..4][i];
    }
    if |h| < |body| {
      assert body[|h|] == path[0];
    }
    if |h| == 4 {
      assert body[4] == path[0];
    } else if |h| > 4 {
      assert body[4] == h[4];
    }
  }

  lemma NoColonAtFive(h: string, path: string)
    requires HostChars(h) && (path == [] || path[0] == '/')
    requires |h + path| > 5 && (h + path)[..5] == "https"
    ensures (h + path)[5] != ':'
  {
    var body := h + path;
    forall i | 0 <= i < 5 ensures body[i] != '/' {
      assert body[i] == body[..5][i];
    }
    if |h| < |body| {
      assert body[|h|] == path[0];
    }
    if |h| == 5 {
      assert body[5] == path[0];
    } else if |h| > 5 {
      assert body[5] == h[5];
    }
  }

  /** Every string made of the pieces the grammar describes is accepted. */
  lemma CustomUrlSound(s: string, scheme: string, labels: seq<string>, tld: string, path: string)
    requires CustomUrlOf(s, scheme, labels, tld, path)
    ensures IsCustomUrl(s)
  {
    var h := Join(labels + [tld], '.');
    HostOfParts(labels, tld);
    StripSchemeOfParts(scheme, h, path);
    SplitHostPath(h, path);
  }

  /** The scheme, if any, is exactly what `StripHttp` removes from a URL built from parts. */
  lemma StripSchemeOfParts(scheme: string, h: string, path: string)
    requires scheme == "" || scheme == "http://" || scheme == "https://"
    requires HostChars(h) && (path == [] || path[0] == '/')
    ensures StripHttp(scheme + h + path) == h + path
  {
    var s := scheme + h + path;
    var body := h + path;
    if scheme == "" {
      assert s == body;
      NoHttpPrefix(h, path);
    } else {
      assert s == scheme + body;
      assert s[..|scheme|] == scheme;
      if scheme == "http://" {
        assert s[4] == ':';
      }
    }
  }

  /** The host ends at the first `/`, where the path begins. */
  lemma SplitHostPath(h: string, path: string)
    requires HostChars(h) && (path == [] || path[0] == '/')
    ensures var body := h + path;
      body[..IndexOfChar(body, '/')] == h && body[IndexOfChar(body, '/')..] == path
  {
    var body := h + path;
    if path == [] {
      assert body == h;
      HostCharsNoSlash(h);
    } else {
      assert body == h + ['/'] + path[1..];
      HostCharsNoSlash(h);
      IndexAfterPrefix(h, '/', path[1..]);
      assert body[..|h|] == h;
      assert body[|h|..] == path;
    }
  }

  /** The dot-separated pieces of a host before the last one. */
  function Labels(h: string): seq<string> {
    var parts := SplitOn(h, '.');
    parts[..|parts| - 1]
  }

  /** The last dot-separated piece of a host. */
  function Tld(h: string): string {
    var parts := SplitOn(h, '.');
    parts[|parts| - 1]
  }

  /** The pieces of an accepted custom URL: scheme, labels, top-level domain and path. */
  function CustomUrlPieces(s: string): (string, seq<string>, string, string)
    requires IsCustomUrl(s)
  {
    var body := StripHttp(s);
    var k := IndexOfChar(body, '/');
    (s[..|s| - |body|], Labels(body[..k]), Tld(body[..k]), body[k..])
  }

  /** Every accepted string is made of such pieces. */
  lemma CustomUrlComplete(s: string)
    requires IsCustomUrl(s)
    ensures var (scheme, labels, tld, path) := CustomUrlPieces(s);
      CustomUrlOf(s, scheme, labels, tld, path)
  {
    var body := StripHttp(s);
    var k := IndexOfChar(body, '/');
    var h := body[..k];
    var path := body[k..];
    var scheme := s[..|s| - |body|];
    assert s == scheme + h + path by {
      assert body == h + path;
    }
    assert IsHost(h) && NoSpace(path);
    StripHttpScheme(s);
    assert path == [] || path[0] == '/';
    PiecesMake(s, scheme, h, path);
  }

  /** A scheme, a host and a path starting with `/` make up the pieces of a custom URL. */
  lemma PiecesMake(s: string, scheme: string, h: string, path: string)
    requires scheme == "" || scheme == "http://" || scheme == "https://"
    requires IsHost(h)
    requires path == [] || (path[0] == '/' && NoSpace(path))
    requires s == scheme + h + path
    ensures CustomUrlOf(s, scheme, Labels(h), Tld(h), path)
  {
    HostPieces(h);
  }

  /**
   * The text `StripHttp` removes is one of the two schemes, or nothing: a
   * leading `https://`, else a leading `http://`, is taken, and any other
   * string is kept whole.
   */
  lemma StripHttpScheme(s: string)
    ensures var scheme := s[..|s| - |StripHttp(s)|];
      scheme == "" || scheme == "http://" || scheme == "https://"
    ensures StartsWith(s, "https://") ==> s == "https://" + StripHttp(s)
    ensures !StartsWith(s, "https://") && StartsWith(s, "http://") ==> s == "http://" + StripHttp(s)
    ensures !StartsWith(s, "https://") && !StartsWith(s, "http://") ==> StripHttp(s) == s
  {
    if StartsWith(s, "https://") {
      assert s == s[..8] + s[8..];
    } else if StartsWith(s, "http://") {
      assert s == s[..7] + s[7..];
    }
  }

  /** A string that does not start with `h` has no scheme to strip. */
  lemma StripHttpKeeps(s: string)
    requires s != [] && s[0] != 'h'
    ensures StripHttp(s) == s
  {
    if |s| >= 8 {
      assert s[..8][0] == s[0];
    }
    if |s| >= 7 {
      assert s[..7][0] == s[0];
    }
  }

  /** A host has a dot. */
  lemma NoDotNoHost(h: string)
    requires '.' !in h
    ensures !IsHost(h)
  {
    IndexOfCharAbsent(h, '.');
    SplitNone(h, '.');
  }

  /** A host is the join of its labels and its top-level domain. */
  lemma HostPieces(h: string)
    requires IsHost(h)
    ensures var parts := SplitOn(h, '.');
      && h == Join(parts[..|parts| - 1] + [parts[|parts| - 1]], '.')
      && forall l :: l in parts[..|parts| - 1] ==> IsLabel(l)
  {
    var parts := SplitOn(h, '.');
    SplitJoin(h, '.');
    assert parts[..|parts| - 1] + [parts[|parts| - 1]] == parts;
    forall l | l in parts[..|parts| - 1] ensures IsLabel(l) {
      var i :| 0 <= i < |parts| - 1 && parts[..|parts| - 1][i] == l;
      assert parts[i] == l;
    }
  }

  // ---------------------------------------------------------------------------
  // GitHub account and repository
  // ---------------------------------------------------------------------------

  /** `[a-zA-Z\d][\w-]{0,37}[a-zA-Z\d]`: a GitHub user or organisation name. */
  predicate IsGithubName(o: string) {
    && 2 <= |o| <= 39
    && IsAlnum(o[0]) && IsAlnum(o[|o| - 1])
    && forall i :: 1 <= i < |o| - 1 ==> IsLabelChar(o[i])
  }

  /**
   * `/^@[a-zA-Z\d](?!.*--)[\w-]{0,37}[a-zA-Z\d]$/`: `@` and a name with no
   * `--`. The look-ahead starts after the first name character, which is
   * alphanumeric, so it rules out `--` anywhere.
   */
  predicate IsGithubAccount(s: string) {
    |s| >= 1 && s[0] == '@' && IsGithubName(s[1..]) && !HasDoubleHyphen(s)
  }

  /** The position of the `/` that ends the owner of a repository id. */
  function OwnerEnd(s: string): nat {
    IndexOfChar(s, '/')
  }

  /**
   * `/^([a-zA-Z\d](?!.*--)[\w-]{0,37}[a-zA-Z\d])\/.*$/`: an owner name, `/`,
   * then anything without a line break. The look-ahead covers the repository
   * part as well, so a `--` anywhere rejects the id.
   */
  predicate IsGithubRepo(s: string) {
    var k := OwnerEnd(s);
    k < |s| && IsGithubName(s[..k]) && NoLineTerminator(s[k + 1..]) && !HasDoubleHyphen(s)
  }

  /** `match[1]` of the repository pattern: the owner. */
  function RepoOwner(s: string): string
    requires IsGithubRepo(s)
  {
    s[..OwnerEnd(s)]
  }

  /** The owner capture is the text before the first `/`, and the repository part is not checked for characters. */
  lemma RepoOwnerSpec(owner: string, repo: string)
    requires IsGithubName(owner) && NoLineTerminator(repo) && !HasDoubleHyphen(owner + "/" + repo)
    ensures IsGithubRepo(owner + "/" + repo)
    ensures RepoOwner(owner + "/" + repo) == owner
  {
    var s := owner + "/" + repo;
    assert '/' !in owner by {
      forall i | 0 <= i < |owner| ensures owner[i] != '/' {
        if 0 < i < |owner| - 1 {
          assert IsLabelChar(owner[i]);
        }
      }
    }
    IndexAfterPrefix(owner, '/', repo);
    assert s[..|owner|] == owner;
    assert s[|owner| + 1..] == repo;
  }

  /**
   * The look-ahead reaches into the repository name: a `--` anywhere in it
   * rejects `owner/repo`, which is accepted without one (`RepoOwnerSpec`).
   */
  lemma RepoDoubleHyphenAnywhere(owner: string, repo: string, i: nat)
    requires i + 1 < |repo| && repo[i] == '-' && repo[i + 1] == '-'
    ensures !IsGithubRepo(owner + "/" + repo)
  {
    var s := owner + "/" + repo;
    var j := |owner| + 1 + i;
    assert s[j] == repo[i] && s[j + 1] == repo[i + 1];
    assert HasDoubleHyphen(s);
  }

  // ---------------------------------------------------------------------------
  // npm package: /^(?=.{1,214}$)(?:@[a-z0-9][a-z0-9._-]*\/)?[a-z0-9][a-z0-9._-]*$/
  // ---------------------------------------------------------------------------

  /** `[a-z0-9][a-z0-9._-]*` */
  predicate IsNpmName(n: string) {
    |n| >= 1 && (IsLower(n[0]) || IsDigit(n[0])) && forall i :: 0 <= i < |n| ==> IsNpmChar(n[i])
  }

  /** `npmPkgRegex.test(s)`: a scope is present exactly when the id starts with `@`. */
  predicate IsNpmPackage(s: string) {
    && 1 <= |s| <= 214
    && if s[0] == '@' then
         var k := IndexOfChar(s, '/');
         k < |s| && IsNpmName(s[1..k]) && IsNpmName(s[k + 1..])
       else IsNpmName(s)
  }

  /**
   * A bare domain of lower-case letters and digits, such as `example.com`, is
   * both a valid npm package name and a custom URL.
   */
  lemma BareDomainIsNpm(domain: string, tld: string)
    requires domain != [] && (forall i :: 0 <= i < |domain| ==> IsLower(domain[i]) || IsDigit(domain[i]))
    requires IsTld(tld) && |domain| + |tld| < 214
    ensures IsNpmPackage(domain + "." + tld)
    ensures IsCustomUrl(domain + "." + tld)
  {
    var s := domain + "." + tld;
    BareDomainNpmChars(domain, tld);
    assert Join([domain, tld], '.') == s;
    assert [domain] + [tld] == [domain, tld];
    CustomUrlSound(s, "", [domain], tld, "");
  }

  lemma BareDomainNpmChars(domain: string, tld: string)
    requires domain != [] && (forall i :: 0 <= i < |domain| ==> IsLower(domain[i]) || IsDigit(domain[i]))
    requires IsTld(tld)
    ensures IsNpmName(domain + "." + tld)
  {
    var s := domain + "." + tld;
    forall i | 0 <= i < |s| ensures IsNpmChar(s[i]) {
      if i < |domain| {
        assert s[i] == domain[i];
      } else if i > |domain| {
        assert s[i] == tld[i - |domain| - 1];
      }
    }
  }

  // ---------------------------------------------------------------------------
  // Tabs: /^org-(\w+)$/
  // ---------------------------------------------------------------------------

  /** `tab.match(tabOrgRegex)?.[1]`: the tab name after `org-`. */
  function OrgTab(tab: string): (r: Option<string>)
    ensures r.Some? <==> exists w :: tab == "org-" + w && w != [] && IsWord(w)
    ensures r.Some? ==> tab == "org-" + r.value
  {
    if |tab| > 4 && tab[..4] == "org-" && IsWord(tab[4..]) then
      assert tab == "org-" + tab[4..];
      Some(tab[4..])
    else
      assert forall w :: tab == "org-" + w ==> tab[..4] == "org-" && tab[4..] == w;
      None
  }
}
