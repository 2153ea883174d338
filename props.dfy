/**
 * hast property objects and `mergeProps` (src/utils.ts).
 *
 * A property object is an ordered list of key/value pairs with distinct keys:
 * the order is JavaScript's insertion order, which decides the order of class
 * tokens. Setting an existing key keeps its position; a new key goes last.
 */
module Props {
  import opened Basics
  import opened Strings

  /** The values a property or directive attribute can hold. */
  datatype Value = Str(s: string) | Num(n: int) | Bool(b: bool) | Null | Undefined | Arr(items: seq<Value>)

  /** JavaScript truthiness: `''`, `0`, `false`, `null` and `undefined` are falsy; arrays are truthy. */
  predicate Truthy(v: Value) {
    match v
    case Str(s) => s != ""
    case Num(n) => n != 0
    case Bool(b) => b
    case Null => false
    case Undefined => false
    case Arr(_) => true
  }

  predicate UniqueKeys(p: seq<(string, Value)>) {
    forall i, j :: 0 <= i < j < |p| ==> p[i].0 != p[j].0
  }

  /** A property object. */
  type Props = p: seq<(string, Value)> | UniqueKeys(p) witness []

  /** A directive's attribute object: string, `null` or `undefined` values only. */
  predicate IsAttrMap(p: Props) {
    forall i :: 0 <= i < |p| ==> p[i].1.Str? || p[i].1.Null? || p[i].1.Undefined?
  }

  type Attrs = p: Props | IsAttrMap(p) witness []

  function Keys(p: seq<(string, Value)>): (ks: seq<string>)
    ensures |ks| == |p| && forall i :: 0 <= i < |p| ==> ks[i] == p[i].0
  {
    seq(|p|, i requires 0 <= i < |p| => p[i].0)
  }

  predicate HasKey(p: seq<(string, Value)>, k: string) {
    k in Keys(p)
  }

  /** Position of `k` in `ks`, or `|ks|`. */
  function IndexOf(ks: seq<string>, k: string): (i: nat)
    ensures i <= |ks|
    ensures i < |ks| ==> ks[i] == k
    ensures forall j :: 0 <= j < i ==> ks[j] != k
  {
    if ks == [] then 0 else if ks[0] == k then 0 else 1 + IndexOf(ks[1..], k)
  }

  /** `p[k]`: `undefined` when the key is absent. */
  function Lookup(p: Props, k: string): (v: Value)
    ensures !HasKey(p, k) ==> v == Undefined
    ensures forall i :: 0 <= i < |p| && p[i].0 == k ==> v == p[i].1
  {
    var i := IndexOf(Keys(p), k);
    if i < |p| then p[i].1 else Undefined
  }

  /**
   * A directive attribute read for its truthiness and text: `''` when it is
   * absent, `null` or `undefined`, which like `''` are falsy.
   */
  function AttrText(attrs: Attrs, k: string): (s: string)
    ensures s != "" <==> Truthy(Lookup(attrs, k))
    ensures s != "" ==> Lookup(attrs, k) == Str(s)
  {
    var v := Lookup(attrs, k);
    if v.Str? then v.s else ""
  }

  /**
   * The `\w+` names an `in` test finds on every plain object, through
   * `Object.prototype`; reading one of them gives a function or an object,
   * never a string.
   */
  const ObjectPrototypeKeys: set<string> := {
    "constructor", "hasOwnProperty", "isPrototypeOf", "propertyIsEnumerable",
    "toLocaleString", "toString", "valueOf", "__proto__",
    "__defineGetter__", "__defineSetter__", "__lookupGetter__", "__lookupSetter__"
  }

  /** `p[k] = v` on a copy. */
  function Set(p: Props, k: string, v: Value): (r: Props)
    ensures Lookup(r, k) == v && HasKey(r, k)
    ensures forall k' {:trigger Lookup(r, k')} :: k' != k ==> Lookup(r, k') == Lookup(p, k')
    ensures forall k' {:trigger HasKey(r, k')} :: HasKey(r, k') <==> HasKey(p, k') || k' == k
  {
    var i := IndexOf(Keys(p), k);
    if i < |p| then
      var r := p[i := (k, v)];
      assert Keys(r) == Keys(p);
      r
    else
      var r := p + [(k, v)];
      assert Keys(r) == Keys(p) + [k];
      r
  }

  /** The object rest `{k1, k2, ...rest} = p`: `p` without the keys `ks`, in order. */
  function Omit(p: Props, ks: set<string>): (r: Props)
    ensures forall k {:trigger HasKey(r, k)} :: HasKey(r, k) <==> HasKey(p, k) && k !in ks
    ensures forall k {:trigger Lookup(r, k)} :: k !in ks ==> Lookup(r, k) == Lookup(p, k)
    ensures IsAttrMap(p) ==> IsAttrMap(r)
  {
    if p == [] then []
    else
      TailProps(p);
      var rest := Omit(p[1..], ks);
      if p[0].0 in ks then rest
      else
        ConsEntry(p[0], rest);
        [p[0]] + rest
  }

  /** A property object is its first entry before the rest, whose keys differ from the first. */
  lemma TailProps(p: Props)
    requires p != []
    ensures UniqueKeys(p[1..]) && !HasKey(p[1..], p[0].0)
    ensures forall k :: HasKey(p, k) <==> k == p[0].0 || HasKey(p[1..], k)
    ensures forall k :: Lookup(p, k) == if k == p[0].0 then p[0].1 else Lookup(p[1..], k)
  {
    var tail := p[1..];
    forall i | 0 <= i < |tail| ensures tail[i].0 != p[0].0 {
      assert tail[i] == p[i + 1];
    }
    assert p == [p[0]] + tail;
    ConsEntry(p[0], tail);
  }

  /** Putting an entry with a new key in front of a property object. */
  lemma ConsEntry(e: (string, Value), rest: Props)
    requires !HasKey(rest, e.0)
    ensures UniqueKeys([e] + rest)
    ensures forall k :: HasKey([e] + rest, k) <==> k == e.0 || HasKey(rest, k)
    ensures forall k :: Lookup([e] + rest, k) == if k == e.0 then e.1 else Lookup(rest, k)
  {
    var r := [e] + rest;
    assert Keys(r) == [e.0] + Keys(rest);
    forall i | 0 <= i < |rest| ensures rest[i].0 != e.0 {
      assert Keys(rest)[i] == rest[i].0;
    }
    assert UniqueKeys(r) by {
      forall i, j | 0 <= i < j < |r| ensures r[i].0 != r[j].0 {
        assert r[j] == rest[j - 1];
        if i > 0 {
          assert r[i] == rest[i - 1];
        }
      }
    }
    var rr: Props := r;
    forall k ensures Lookup(rr, k) == if k == e.0 then e.1 else Lookup(rest, k) {
      if k != e.0 {
        assert Keys(r)[1..] == Keys(rest);
        assert IndexOf(Keys(r), k) == 1 + IndexOf(Keys(rest), k);
      }
    }
  }

  /** `Object.assign({...t}, s)`, also `{...t, ...s}`: the keys of `s` overwrite, falsy values included. */
  function Assign(t: Props, s: Props): (r: Props)
    ensures forall k {:trigger HasKey(r, k)} :: HasKey(r, k) <==> HasKey(t, k) || HasKey(s, k)
    ensures forall k {:trigger Lookup(r, k)} :: Lookup(r, k) == if HasKey(s, k) then Lookup(s, k) else Lookup(t, k)
    decreases |s|
  {
    if s == [] then t
    else
      assert forall k :: HasKey(s, k) <==> k == s[0].0 || HasKey(s[1..], k);
      assert !HasKey(s[1..], s[0].0);
      Assign(Set(t, s[0].0, s[0].1), s[1..])
  }

  // ---------------------------------------------------------------------------
  // The specification of mergeProps
  // ---------------------------------------------------------------------------

  predicate IsClassKey(k: string) { k == "class" || k == "className" }

  /** The string elements of an array that are non-empty, in order (from the back, as a loop builds them). */
  function ArrayTokens(items: seq<Value>): (ts: seq<string>)
    ensures forall t :: t in ts ==> t != ""
  {
    if items == [] then []
    else
      var last := items[|items| - 1];
      ArrayTokens(items[..|items| - 1]) + (if last.Str? && last.s != "" then [last.s] else [])
  }

  /** The class tokens of one value: whitespace-separated words of a string, non-empty strings of an array. */
  function Tokens(v: Value): (ts: seq<string>)
    ensures forall t :: t in ts ==> t != ""
  {
    match v
    case Str(s) => Words(s)
    case Arr(items) => ArrayTokens(items)
    case _ => []
  }

  function EntryTokens(e: (string, Value)): seq<string> {
    if IsClassKey(e.0) && Truthy(e.1) then Tokens(e.1) else []
  }

  /** Class tokens of a run of entries, in key order. */
  function EntriesTokens(es: seq<(string, Value)>): seq<string> {
    if es == [] then [] else EntriesTokens(es[..|es| - 1]) + EntryTokens(es[|es| - 1])
  }

  /** Class tokens of all layers, lowest precedence first; absent layers contribute nothing. */
  function ClassTokens(layers: seq<Option<Props>>): seq<string> {
    if layers == [] then []
    else
      var last := layers[|layers| - 1];
      ClassTokens(layers[..|layers| - 1]) + (if last.Some? then EntriesTokens(last.value) else [])
  }

  function EntryStep(acc: Props, e: (string, Value)): (r: Props)
    ensures forall k {:trigger HasKey(r, k)} :: HasKey(r, k) <==> HasKey(acc, k) || (k == e.0 && !IsClassKey(k) && Truthy(e.1))
  {
    if !IsClassKey(e.0) && Truthy(e.1) then Set(acc, e.0, e.1) else acc
  }

  /** The non-class part: each truthy value is written over the accumulated object. */
  function OverlayEntries(acc: Props, es: seq<(string, Value)>): (r: Props)
    ensures forall k :: IsClassKey(k) && !HasKey(acc, k) ==> !HasKey(r, k)
  {
    if es == [] then acc else EntryStep(OverlayEntries(acc, es[..|es| - 1]), es[|es| - 1])
  }

  function Overlay(layers: seq<Option<Props>>): (r: Props)
    ensures forall k :: IsClassKey(k) ==> !HasKey(r, k)
  {
    if layers == [] then []
    else
      var last := layers[|layers| - 1];
      var front := Overlay(layers[..|layers| - 1]);
      if last.Some? then OverlayEntries(front, last.value) else front
  }

  function StrValues(ts: seq<string>): (vs: seq<Value>)
    ensures |vs| == |ts| && forall i :: 0 <= i < |ts| ==> vs[i] == Str(ts[i])
  {
    seq(|ts|, i requires 0 <= i < |ts| => Str(ts[i]))
  }

  /** What `mergeProps` returns for the given layers, lowest precedence first. */
  function Merge(layers: seq<Option<Props>>): Props {
    var base := Overlay(layers);
    var classes := Dedup(ClassTokens(layers));
    if classes == [] then base
    else
      AppendNewKey(base, "className", Arr(StrValues(classes)));
      base + [("className", Arr(StrValues(classes)))]
  }

  lemma AppendNewKey(p: Props, k: string, v: Value)
    requires !HasKey(p, k)
    ensures UniqueKeys(p + [(k, v)])
  {
    forall i | 0 <= i < |p| ensures p[i].0 != k {
      assert Keys(p)[i] == p[i].0;
    }
  }

  // ---------------------------------------------------------------------------
  // What the merge promises
  // ---------------------------------------------------------------------------

  /** The value for `k` in the highest-precedence layer that gives it a truthy value, else `undefined`. */
  function LastTruthy(layers: seq<Option<Props>>, k: string): Value {
    if layers == [] then Undefined
    else
      var last := layers[|layers| - 1];
      if last.Some? && Truthy(Lookup(last.value, k)) then Lookup(last.value, k)
      else LastTruthy(layers[..|layers| - 1], k)
  }

  lemma LookupSnoc(p: Props, k: string)
    requires p != []
    ensures Lookup(p, k) == if p[|p| - 1].0 == k then p[|p| - 1].1 else Lookup(p[..|p| - 1], k)
    ensures HasKey(p, k) <==> p[|p| - 1].0 == k || HasKey(p[..|p| - 1], k)
  {
    var front: Props := p[..|p| - 1];
    assert Keys(p) == Keys(front) + [p[|p| - 1].0];
    if p[|p| - 1].0 != k && HasKey(front, k) {
      var i :| 0 <= i < |front| && Keys(front)[i] == k;
      assert p[i] == front[i];
    }
  }

  lemma {:induction false} OverlayEntriesLookup(acc: Props, es: Props, k: string)
    requires !IsClassKey(k)
    ensures Lookup(OverlayEntries(acc, es), k) == if Truthy(Lookup(es, k)) then Lookup(es, k) else Lookup(acc, k)
    ensures HasKey(OverlayEntries(acc, es), k) <==> HasKey(acc, k) || Truthy(Lookup(es, k))
    decreases |es|
  {
    if es != [] {
      var front: Props := es[..|es| - 1];
      OverlayEntriesLookup(acc, front, k);
      LookupSnoc(es, k);
      if es[|es| - 1].0 == k {
        assert !HasKey(front, k) by {
          forall i | 0 <= i < |front| ensures Keys(front)[i] != k {
            assert front[i] == es[i];
          }
        }
      }
    }
  }

  lemma {:induction false} OverlayLookup(layers: seq<Option<Props>>, k: string)
    requires !IsClassKey(k)
    ensures Lookup(Overlay(layers), k) == LastTruthy(layers, k)
    ensures HasKey(Overlay(layers), k) <==> Truthy(LastTruthy(layers, k))
  {
    if layers != [] {
      OverlayLookup(layers[..|layers| - 1], k);
      var last := layers[|layers| - 1];
      if last.Some? {
        OverlayEntriesLookup(Overlay(layers[..|layers| - 1]), last.value, k);
      }
    }
  }

  /**
   * Every key other than `class`/`className` ends up with the value of the
   * highest-precedence layer that gives it a truthy value, and is present
   * exactly when some layer does.
   */
  lemma MergeLookup(layers: seq<Option<Props>>, k: string)
    requires !IsClassKey(k)
    ensures Lookup(Merge(layers), k) == LastTruthy(layers, k)
    ensures HasKey(Merge(layers), k) <==> Truthy(LastTruthy(layers, k))
  {
    OverlayLookup(layers, k);
    var classes := Dedup(ClassTokens(layers));
    if classes != [] {
      LookupSnoc(Merge(layers), k);
    }
  }

  /** The highest-precedence truthy value among three layers. */
  lemma LastTruthyOfThree(a: Option<Props>, b: Option<Props>, c: Option<Props>, k: string)
    ensures LastTruthy([a, b, c], k)
         == if c.Some? && Truthy(Lookup(c.value, k)) then Lookup(c.value, k)
            else if b.Some? && Truthy(Lookup(b.value, k)) then Lookup(b.value, k)
            else if a.Some? && Truthy(Lookup(a.value, k)) then Lookup(a.value, k)
            else Undefined
  {
    var none: seq<Option<Props>> := [];
    assert [a, b, c][..2] == [a, b];
    assert [a, b][..1] == [a];
    assert [a][..0] == none;
    assert LastTruthy([a], k) == if a.Some? && Truthy(Lookup(a.value, k)) then Lookup(a.value, k) else Undefined;
    assert LastTruthy([a, b], k)
        == if b.Some? && Truthy(Lookup(b.value, k)) then Lookup(b.value, k) else LastTruthy([a], k);
  }

  /** A key that only the lowest of three layers can set keeps that layer's value, if truthy. */
  lemma MergeLowestOnly(a: Props, b: Props, c: Props, k: string)
    requires !IsClassKey(k)
    requires !Truthy(Lookup(b, k)) && !Truthy(Lookup(c, k))
    ensures Lookup(Merge([Some(a), Some(b), Some(c)]), k) == if Truthy(Lookup(a, k)) then Lookup(a, k) else Undefined
  {
    MergeLookup([Some(a), Some(b), Some(c)], k);
    LastTruthyOfThree(Some(a), Some(b), Some(c), k);
  }

  /** Local props beat preset props, which beat global props. */
  lemma MergePrecedence(globalProps: Option<Props>, presetProps: Option<Props>, localProps: Option<Props>, k: string)
    requires !IsClassKey(k)
    ensures localProps.Some? && Truthy(Lookup(localProps.value, k))
        ==> Lookup(Merge([globalProps, presetProps, localProps]), k) == Lookup(localProps.value, k)
    ensures (localProps.None? || !Truthy(Lookup(localProps.value, k))) && presetProps.Some? && Truthy(Lookup(presetProps.value, k))
        ==> Lookup(Merge([globalProps, presetProps, localProps]), k) == Lookup(presetProps.value, k)
  {
    var layers := [globalProps, presetProps, localProps];
    MergeLookup(layers, k);
    assert layers[..2] == [globalProps, presetProps];
  }

  /**
   * Class names are never overridden: `class` is dropped, and `className` is
   * the list of all class tokens of all layers, each once, present only when
   * there is at least one.
   */
  lemma MergeClassName(layers: seq<Option<Props>>)
    ensures !HasKey(Merge(layers), "class")
    ensures Dedup(ClassTokens(layers)) == [] ==> !HasKey(Merge(layers), "className")
    ensures Dedup(ClassTokens(layers)) != []
        ==> Lookup(Merge(layers), "className") == Arr(StrValues(Dedup(ClassTokens(layers))))
  {
    var classes := Dedup(ClassTokens(layers));
    if classes != [] {
      LookupSnoc(Merge(layers), "class");
      LookupSnoc(Merge(layers), "className");
    }
  }

  /** The class tokens of a prefix of the entries come first. */
  lemma {:induction false} EntriesTokensPrefix(es: seq<(string, Value)>, n: nat)
    requires n <= |es|
    ensures EntriesTokens(es[..n]) <= EntriesTokens(es)
    decreases |es| - n
  {
    if n == |es| {
      assert es[..n] == es;
    } else {
      var front := es[..|es| - 1];
      EntriesTokensPrefix(front, n);
      assert front[..n] == es[..n];
    }
  }

  /** The class tokens of the lower layers come first. */
  lemma {:induction false} ClassTokensPrefix(layers: seq<Option<Props>>, n: nat)
    requires n <= |layers|
    ensures ClassTokens(layers[..n]) <= ClassTokens(layers)
    decreases |layers| - n
  {
    if n == |layers| {
      assert layers[..n] == layers;
    } else {
      var front := layers[..|layers| - 1];
      ClassTokensPrefix(front, n);
      assert front[..n] == layers[..n];
    }
  }

  /** Setting a key other than the first keeps the first entry in place. */
  lemma {:induction false} AssignKeepsFirst(t: Props, s: Props)
    requires t != [] && !HasKey(s, t[0].0)
    ensures Assign(t, s) != [] && Assign(t, s)[0] == t[0]
    decreases |s|
  {
    if s != [] {
      assert Keys(s)[0] == s[0].0;
      assert !HasKey(s[1..], t[0].0) by {
        forall i | 0 <= i < |s[1..]| ensures Keys(s[1..])[i] != t[0].0 {
          assert Keys(s[1..])[i] == Keys(s)[i + 1];
        }
      }
      var t' := Set(t, s[0].0, s[0].1);
      assert t' != [] && t'[0] == t[0] by {
        assert Keys(t)[0] == t[0].0;
      }
      AssignKeepsFirst(t', s[1..]);
    }
  }

  /** The default layer's own class comes first among its tokens. */
  lemma DefaultLayerTokens(c: string, user: Props)
    requires Words(c) == [c]
    requires !HasKey(user, "className")
    ensures var ts := EntriesTokens(Assign([("className", Arr([Str(c)]))], user));
      ts != [] && ts[0] == c
  {
    var d: Props := [("className", Arr([Str(c)]))];
    AssignKeepsFirst(d, user);
    assert c != "" by {
      assert c in Words(c);
    }
    HeadEntryTokens(Assign(d, user), c);
  }

  /** Entries that start with the class array `[c]` have `c` as their first token. */
  lemma HeadEntryTokens(g: Props, c: string)
    requires g != [] && g[0] == ("className", Arr([Str(c)])) && c != ""
    ensures EntriesTokens(g) != [] && EntriesTokens(g)[0] == c
  {
    assert ArrayTokens([Str(c)]) == ArrayTokens([]) + [c];
    assert EntriesTokens(g[..1]) == [c] by {
      var none: seq<(string, Value)> := [];
      assert g[..1][..0] == none;
      assert EntryTokens(g[0]) == [c];
    }
    EntriesTokensPrefix(g, 1);
  }

  /** The first layer's class tokens come first. */
  lemma FirstLayerTokens(g: Props, rest: seq<Option<Props>>)
    ensures EntriesTokens(g) <= ClassTokens([Some(g)] + rest)
  {
    var layers := [Some(g)] + rest;
    assert ClassTokens(layers[..1]) == EntriesTokens(g) by {
      var none: seq<Option<Props>> := [];
      assert layers[..1] == [Some(g)];
      assert [Some(g)][..0] == none;
    }
    ClassTokensPrefix(layers, 1);
  }

  /** The first element of a sequence is the first element of its set. */
  lemma DedupHead<T>(ts: seq<T>)
    requires ts != []
    ensures Dedup(ts) != [] && Dedup(ts)[0] == ts[0]
  {
    assert ts == [ts[0]] + ts[1..];
    DedupSpec([ts[0]], ts[1..]);
    assert Dedup([ts[0]]) == [ts[0]] by {
      assert [ts[0]][..0] == [];
      assert Extend([], [ts[0]]) == Extend([], []) + [ts[0]];
    }
  }

  /**
   * A default `className` layer written as `{className: [c], ...user}` keeps
   * `c` as the first class of the merge when the user object has no
   * `className` of its own (a user `class` key is added after it).
   */
  lemma DefaultClassFirst(c: string, user: Props, rest: seq<Option<Props>>)
    requires Words(c) == [c]
    requires !HasKey(user, "className")
    ensures var layers := [Some(Assign([("className", Arr([Str(c)]))], user))] + rest;
      && Dedup(ClassTokens(layers)) != []
      && Dedup(ClassTokens(layers))[0] == c
      && Lookup(Merge(layers), "className") == Arr(StrValues(Dedup(ClassTokens(layers))))
  {
    var g := Assign([("className", Arr([Str(c)]))], user);
    var layers := [Some(g)] + rest;
    DefaultLayerTokens(c, user);
    FirstLayerTokens(g, rest);
    DedupHead(ClassTokens(layers));
    MergeClassName(layers);
  }

  // ---------------------------------------------------------------------------
  // mergeProps itself (src/utils.ts:60-102)
  // ---------------------------------------------------------------------------

  /** The inner `addClasses` closure: adds the tokens of one class value to the set. */
  method AddClasses(classes: seq<string>, value: Value) returns (r: seq<string>)
    ensures r == Extend(classes, Tokens(value))
  {
    r := classes;
    match value {
      case Str(s) =>
        var parts := Words(s);
        for t := 0 to |parts|
          invariant r == Extend(classes, parts[..t])
        {
          assert parts[..t + 1][..t] == parts[..t];
          assert parts[..t + 1][t] == parts[t];
          assert parts[t] in parts;
          var c := parts[t];
          if c != "" && c !in r {
            r := r + [c];
          }
        }
        assert parts[..|parts|] == parts;
      case Arr(items) =>
        for t := 0 to |items|
          invariant r == Extend(classes, ArrayTokens(items[..t]))
        {
          assert items[..t + 1][..t] == items[..t];
          assert items[..t + 1][t] == items[t];
          var c := items[t];
          if c.Str? && c.s != "" {
            assert ArrayTokens(items[..t + 1]) == ArrayTokens(items[..t]) + [c.s];
            assert (ArrayTokens(items[..t]) + [c.s])[..|ArrayTokens(items[..t])|] == ArrayTokens(items[..t]);
            if c.s !in r {
              r := r + [c.s];
            }
          } else {
            assert ArrayTokens(items[..t + 1]) == ArrayTokens(items[..t]) + [];
            assert ArrayTokens(items[..t]) + [] == ArrayTokens(items[..t]);
          }
        }
        assert items[..|items|] == items;
      case _ =>
    }
  }

  /** One pass of the loop over a layer's keys (src/utils.ts:87-96). */
  method MergeLayer(props0: Props, classes0: seq<string>, config: Props)
    returns (newProps: Props, classes: seq<string>)
    ensures newProps == OverlayEntries(props0, config)
    ensures classes == Extend(classes0, EntriesTokens(config))
  {
    newProps, classes := props0, classes0;
    for j := 0 to |config|
      invariant newProps == OverlayEntries(props0, config[..j])
      invariant classes == Extend(classes0, EntriesTokens(config[..j]))
    {
      assert config[..j + 1][..j] == config[..j];
      assert config[..j + 1][j] == config[j];
      assert EntriesTokens(config[..j + 1]) == EntriesTokens(config[..j]) + EntryTokens(config[j]);
      var key, value := config[j].0, config[j].1;
      if Truthy(value) {
        if IsClassKey(key) {
          assert EntryTokens(config[j]) == Tokens(value);
          ExtendAppend(classes0, EntriesTokens(config[..j]), Tokens(value));
          classes := AddClasses(classes, value);
        } else {
          assert EntriesTokens(config[..j]) + [] == EntriesTokens(config[..j]);
          newProps := Set(newProps, key, value);
        }
      } else {
        assert EntriesTokens(config[..j]) + [] == EntriesTokens(config[..j]);
      }
    }
    assert config[..|config|] == config;
  }

  /**
   * `mergeProps(globalProps, presetProps, localProps)`: walks the layers and
   * their keys in order, collecting class tokens into an insertion-ordered set
   * and copying every other truthy value.
   */
  method MergeProps(globalProps: Option<Props>, presetProps: Option<Props>, localProps: Option<Props>)
    returns (newProps: Props)
    ensures newProps == Merge([globalProps, presetProps, localProps])
  {
    newProps := MergeConfigs([globalProps, presetProps, localProps]);
  }

  /** The body of `mergeProps` over its list of configs, lowest precedence first. */
  method MergeConfigs(configs: seq<Option<Props>>) returns (newProps: Props)
    ensures newProps == Merge(configs)
  {
    var classes: seq<string> := [];
    newProps := [];
    for n := 0 to |configs|
      invariant newProps == Overlay(configs[..n])
      invariant classes == Dedup(ClassTokens(configs[..n]))
    {
      LayersSnoc(configs, n);
      if configs[n].Some? {
        newProps, classes := MergeLayer(newProps, classes, configs[n].value);
      }
    }
    assert configs[..|configs|] == configs;
    if |classes| > 0 {
      AppendNewKey(newProps, "className", Arr(StrValues(classes)));
      newProps := newProps + [("className", Arr(StrValues(classes)))];
    }
  }

  /** One more layer extends both the overlay and the deduplicated class tokens by that layer alone. */
  lemma LayersSnoc(layers: seq<Option<Props>>, n: nat)
    requires n < |layers|
    ensures Overlay(layers[..n + 1])
         == if layers[n].Some? then OverlayEntries(Overlay(layers[..n]), layers[n].value) else Overlay(layers[..n])
    ensures Dedup(ClassTokens(layers[..n + 1]))
         == if layers[n].Some? then Extend(Dedup(ClassTokens(layers[..n])), EntriesTokens(layers[n].value))
            else Dedup(ClassTokens(layers[..n]))
  {
    assert layers[..n + 1][..n] == layers[..n];
    assert layers[..n + 1][n] == layers[n];
    if layers[n].Some? {
      ExtendAppend([], ClassTokens(layers[..n]), EntriesTokens(layers[n].value));
    } else {
      assert ClassTokens(layers[..n]) + [] == ClassTokens(layers[..n]);
    }
  }
}
