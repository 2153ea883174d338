/**
 * The pieces of JavaScript string behaviour the plugin relies on, written out:
 * the regular-expression character classes `\w`, `\s` and `.`, `split` on one
 * character, `trim`, `split(/\s+/)` with empty pieces dropped, and
 * `String.prototype.replace` with a string pattern (first occurrence only,
 * with the `$` substitution patterns of the replacement string).
 */
module Strings {
  import opened Basics

  // ---------------------------------------------------------------------------
  // Character classes (regular expressions without the `u` or `i` flag)
  // ---------------------------------------------------------------------------

  predicate IsLower(c: char) { 'a' <= c <= 'z' }
  predicate IsUpper(c: char) { 'A' <= c <= 'Z' }
  predicate IsDigit(c: char) { '0' <= c <= '9' }

  /** `[a-zA-Z\d]` */
  predicate IsAlnum(c: char) { IsLower(c) || IsUpper(c) || IsDigit(c) }

  /** `\w` */
  predicate IsWordChar(c: char) { IsAlnum(c) || c == '_' }

  /** The characters that `.` does not match. */
  predicate IsLineTerminator(c: char) {
    c == '\n' || c == '\r' || c == '\U{2028}' || c == '\U{2029}'
  }

  /** `\s`: ECMAScript WhiteSpace and LineTerminator; also what `trim` removes. */
  predicate IsSpace(c: char) {
    || IsLineTerminator(c)
    || c == '\t' || c == '\U{000B}' || c == '\U{000C}' || c == ' '
    || c == '\U{00A0}' || c == '\U{1680}' || ('\U{2000}' <= c <= '\U{200A}')
    || c == '\U{202F}' || c == '\U{205F}' || c == '\U{3000}' || c == '\U{FEFF}'
  }

  /** `\w*` */
  predicate IsWord(s: string) { forall i :: 0 <= i < |s| ==> IsWordChar(s[i]) }

  /** `[^\s]*` */
  predicate NoSpace(s: string) { forall i :: 0 <= i < |s| ==> !IsSpace(s[i]) }

  /** `.*` */
  predicate NoLineTerminator(s: string) { forall i :: 0 <= i < |s| ==> !IsLineTerminator(s[i]) }

  /** `s` contains the text `--`. */
  predicate HasDoubleHyphen(s: string) {
    exists i :: 0 <= i < |s| - 1 && s[i] == '-' && s[i + 1] == '-'
  }

  predicate StartsWith(s: string, prefix: string) {
    |prefix| <= |s| && s[..|prefix|] == prefix
  }

  // ---------------------------------------------------------------------------
  // Searching and splitting on one character
  // ---------------------------------------------------------------------------

  /** The index of the first `c` in `s`, or `|s|` when there is none. */
  function IndexOfChar(s: string, c: char): (k: nat)
    ensures k <= |s|
    ensures k < |s| ==> s[k] == c
  {
    if s == [] then 0
    else if s[0] == c then 0
    else 1 + IndexOfChar(s[1..], c)
  }

  /** `s.split(c)` for a one-character separator: never empty, pieces may be. */
  function SplitOn(s: string, c: char): (parts: seq<string>)
    ensures |parts| >= 1
    decreases |s|
  {
    var k := IndexOfChar(s, c);
    if k == |s| then [s]
    else [s[..k]] + SplitOn(s[k + 1..], c)
  }

  /** `parts.join(c)` */
  function Join(parts: seq<string>, c: char): string
    requires |parts| >= 1
  {
    if |parts| == 1 then parts[0] else parts[0] + [c] + Join(parts[1..], c)
  }

  /** Joining the pieces of a split gives back the string. */
  lemma {:induction false} SplitJoin(s: string, c: char)
    ensures Join(SplitOn(s, c), c) == s
    decreases |s|
  {
    var k := IndexOfChar(s, c);
    if k < |s| {
      SplitAt(s, c, k);
      var rest := s[k + 1..];
      SplitJoin(rest, c);
      JoinCons(s[..k], SplitOn(rest, c), c);
      Reassemble(s, k);
    } else {
      SplitNone(s, c);
    }
  }

  /** Unfolds a split at the first separator. */
  lemma SplitAt(s: string, c: char, k: nat)
    requires k == IndexOfChar(s, c) && k < |s|
    ensures SplitOn(s, c) == [s[..k]] + SplitOn(s[k + 1..], c)
  {
  }

  /** A string without the separator splits into itself. */
  lemma SplitNone(s: string, c: char)
    requires IndexOfChar(s, c) == |s|
    ensures SplitOn(s, c) == [s]
  {
  }

  /** No character before the index of `c` is a `c`. */
  lemma {:induction false} IndexOfCharFirst(s: string, c: char)
    ensures c !in s[..IndexOfChar(s, c)]
    decreases |s|
  {
    if s != [] && s[0] != c {
      IndexOfCharFirst(s[1..], c);
      assert s[..IndexOfChar(s, c)] == [s[0]] + s[1..][..IndexOfChar(s[1..], c)];
    }
  }

  /** No piece of a split contains the separator. */
  lemma {:induction false} SplitPieces(s: string, c: char)
    ensures forall i :: 0 <= i < |SplitOn(s, c)| ==> c !in SplitOn(s, c)[i]
    decreases |s|
  {
    var k := IndexOfChar(s, c);
    var parts := SplitOn(s, c);
    IndexOfCharFirst(s, c);
    if k == |s| {
      SplitNone(s, c);
      assert s[..k] == s;
    } else {
      SplitAt(s, c, k);
      var tail := SplitOn(s[k + 1..], c);
      SplitPieces(s[k + 1..], c);
      forall i | 0 <= i < |parts| ensures c !in parts[i] {
        if i > 0 {
          assert parts[i] == tail[i - 1];
        }
      }
    }
  }

  lemma Reassemble(s: string, k: nat)
    requires k < |s|
    ensures s[..k] + [s[k]] + s[k + 1..] == s
  {
  }

  lemma JoinCons(p: string, q: seq<string>, c: char)
    requires |q| >= 1
    ensures Join([p] + q, c) == p + [c] + Join(q, c)
  {
    assert ([p] + q)[1..] == q;
  }

  /** Splitting the join of separator-free pieces gives back the pieces. */
  lemma {:induction false} JoinSplit(parts: seq<string>, c: char)
    requires |parts| >= 1
    requires forall p :: p in parts ==> c !in p
    ensures SplitOn(Join(parts, c), c) == parts
  {
    if |parts| == 1 {
      assert c !in parts[0];
      IndexOfCharAbsent(parts[0], c);
    } else {
      var s := Join(parts, c);
      var rest := Join(parts[1..], c);
      assert s == parts[0] + [c] + rest;
      assert c !in parts[0];
      IndexAfterPrefix(parts[0], c, rest);
      assert s[..|parts[0]|] == parts[0];
      assert s[|parts[0]| + 1..] == rest;
      JoinSplit(parts[1..], c);
    }
  }

  /** A string without `c` has its index of `c` at its end. */
  lemma {:induction false} IndexOfCharAbsent(s: string, c: char)
    requires c !in s
    ensures IndexOfChar(s, c) == |s|
    decreases |s|
  {
    if s != [] {
      assert s[0] in s;
      assert forall x :: x in s[1..] ==> x in s;
      IndexOfCharAbsent(s[1..], c);
    }
  }

  lemma {:induction false} IndexAfterPrefix(p: string, c: char, rest: string)
    requires c !in p
    ensures IndexOfChar(p + [c] + rest, c) == |p|
    decreases |p|
  {
    var s := p + [c] + rest;
    if p != [] {
      assert s[0] == p[0];
      assert s[1..] == p[1..] + [c] + rest;
      IndexAfterPrefix(p[1..], c, rest);
    }
  }

  // ---------------------------------------------------------------------------
  // trim and split(/\s+/)
  // ---------------------------------------------------------------------------

  /** Drops the leading `\s` characters. */
  function TrimStart(s: string): (r: string)
    ensures |r| <= |s| && r == s[|s| - |r|..]
    ensures r == [] || !IsSpace(r[0])
    ensures forall i :: 0 <= i < |s| - |r| ==> IsSpace(s[i])
  {
    if s == [] || !IsSpace(s[0]) then s else TrimStart(s[1..])
  }

  /** Drops the trailing `\s` characters. */
  function TrimEnd(s: string): (r: string)
    ensures |r| <= |s| && r == s[..|r|]
    ensures r == [] || !IsSpace(r[|r| - 1])
    ensures forall i :: |r| <= i < |s| ==> IsSpace(s[i])
  {
    if s == [] || !IsSpace(s[|s| - 1]) then s else TrimEnd(s[..|s| - 1])
  }

  /** `s.trim()` */
  function Trim(s: string): string {
    TrimEnd(TrimStart(s))
  }

  /** Length of the leading run of non-`\s` characters. */
  function RunLength(s: string): (n: nat)
    ensures n <= |s| && NoSpace(s[..n])
    ensures n < |s| ==> IsSpace(s[n])
  {
    if s == [] || IsSpace(s[0]) then 0 else 1 + RunLength(s[1..])
  }

  /**
   * `s.split(/\s+/)` with the empty pieces dropped (the `if (c)` filter of
   * the class collector): the maximal runs of non-`\s` characters, in order.
   */
  function Words(s: string): (ws: seq<string>)
    ensures forall w :: w in ws ==> w != [] && NoSpace(w)
    decreases |s|
  {
    if s == [] then []
    else if IsSpace(s[0]) then Words(s[1..])
    else
      var n := RunLength(s);
      [s[..n]] + Words(s[n..])
  }

  lemma {:induction false} RunLengthOfNoSpace(s: string)
    requires NoSpace(s)
    ensures RunLength(s) == |s|
  {
    if s != [] {
      RunLengthOfNoSpace(s[1..]);
    }
  }

  /** A non-empty string without `\s` is a single word. */
  lemma WordOfNoSpace(s: string)
    requires s != [] && NoSpace(s)
    ensures Words(s) == [s]
  {
    RunLengthOfNoSpace(s);
    assert s[..|s|] == s;
  }

  /** The characters of `s` that are not `\s`, in order. */
  function Unspaced(s: string): string {
    if s == [] then [] else (if IsSpace(s[0]) then [] else [s[0]]) + Unspaced(s[1..])
  }

  function Concat(ws: seq<string>): string {
    if ws == [] then [] else ws[0] + Concat(ws[1..])
  }

  lemma {:induction false} UnspacedOfNoSpace(s: string)
    requires NoSpace(s)
    ensures Unspaced(s) == s
  {
    if s != [] {
      UnspacedOfNoSpace(s[1..]);
    }
  }

  lemma {:induction false} UnspacedAppend(a: string, b: string)
    ensures Unspaced(a + b) == Unspaced(a) + Unspaced(b)
  {
    if a == [] {
      assert a + b == b;
    } else {
      assert (a + b)[1..] == a[1..] + b;
      UnspacedAppend(a[1..], b);
    }
  }

  /** The words are exactly the non-space characters of `s`, cut at the spaces. */
  lemma {:induction false} WordsCoverText(s: string)
    ensures Concat(Words(s)) == Unspaced(s)
    decreases |s|
  {
    if s == [] {
    } else if IsSpace(s[0]) {
      WordsCoverText(s[1..]);
    } else {
      var n := RunLength(s);
      WordsCoverText(s[n..]);
      assert s == s[..n] + s[n..];
      UnspacedAppend(s[..n], s[n..]);
      UnspacedOfNoSpace(s[..n]);
    }
  }

  // ---------------------------------------------------------------------------
  // String.prototype.replace(pattern: string, replacement: string)
  // ---------------------------------------------------------------------------

  /** `pat` occurs in `s` at index `i`. */
  predicate OccursAt(s: string, pat: string, i: nat) {
    i + |pat| <= |s| && s[i..i + |pat|] == pat
  }

  lemma OccursShift(s: string, pat: string)
    requires s != []
    ensures forall i: nat :: 1 <= i ==> (OccursAt(s, pat, i) <==> OccursAt(s[1..], pat, i - 1))
  {
    forall i: nat | 1 <= i ensures OccursAt(s, pat, i) <==> OccursAt(s[1..], pat, i - 1) {
      if i + |pat| <= |s| {
        assert s[1..][i - 1..i - 1 + |pat|] == s[i..i + |pat|];
      }
    }
  }

  /** Index of the first occurrence of `pat` in `s`. */
  function Find(s: string, pat: string): (r: Option<nat>)
    ensures r.Some? ==> OccursAt(s, pat, r.value)
    ensures forall i: nat :: OccursAt(s, pat, i) ==> r.Some? && r.value <= i
    decreases |s|
  {
    if |pat| > |s| then None
    else if s[..|pat|] == pat then Some(0)
    else
      assert s[0..|pat|] == s[..|pat|];
      OccursShift(s, pat);
      match Find(s[1..], pat)
      case None => None
      case Some(k) => Some(k + 1)
  }

  /**
   * The replacement text for one match (GetSubstitution without capture
   * groups): `$$` is `$`, `$&` the match, `` $` `` the text before it, `$'` the
   * text after it; any other `$` stays literal.
   */
  function Substitute(rep: string, matched: string, before: string, after: string): string
    decreases |rep|
  {
    if rep == [] then []
    else if rep[0] == '$' && |rep| >= 2 && rep[1] == '$' then "$" + Substitute(rep[2..], matched, before, after)
    else if rep[0] == '$' && |rep| >= 2 && rep[1] == '&' then matched + Substitute(rep[2..], matched, before, after)
    else if rep[0] == '$' && |rep| >= 2 && rep[1] == '`' then before + Substitute(rep[2..], matched, before, after)
    else if rep[0] == '$' && |rep| >= 2 && rep[1] == '\'' then after + Substitute(rep[2..], matched, before, after)
    else [rep[0]] + Substitute(rep[1..], matched, before, after)
  }

  /** A replacement without `$` is inserted verbatim. */
  lemma {:induction false} SubstituteLiteral(rep: string, matched: string, before: string, after: string)
    requires '$' !in rep
    ensures Substitute(rep, matched, before, after) == rep
    decreases |rep|
  {
    if rep != [] {
      SubstituteLiteral(rep[1..], matched, before, after);
    }
  }

  /** `s.replace(pat, rep)`: only the first occurrence is replaced. */
  function ReplaceFirst(s: string, pat: string, rep: string): (r: string)
    ensures Find(s, pat).None? ==> r == s
  {
    match Find(s, pat)
    case None => s
    case Some(i) => s[..i] + Substitute(rep, pat, s[..i], s[i + |pat|..]) + s[i + |pat|..]
  }

  /**
   * With a `$`-free replacement, `replace` puts `rep` where the first `pat`
   * was and keeps the text around it; any later `pat` is left alone.
   */
  lemma ReplaceFirstLiteral(s: string, pat: string, rep: string)
    requires '$' !in rep
    requires Find(s, pat).Some?
    ensures var i := Find(s, pat).value;
            ReplaceFirst(s, pat, rep) == s[..i] + rep + s[i + |pat|..]
            && s == s[..i] + pat + s[i + |pat|..]
  {
    var i := Find(s, pat).value;
    var before, after := s[..i], s[i + |pat|..];
    SubstituteLiteral(rep, pat, before, after);
    assert s[i..i + |pat|] == pat;
    assert s == before + s[i..i + |pat|] + after;
  }
}
