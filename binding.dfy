/**
 * The placeholder binding of `replacePlaceholders`: how one element carrying a
 * `data-config` path is updated from the configuration value that path names.
 */
module Binding {
  import opened Wrappers
  import opened Text
  import opened Json
  import opened Path

  /**
   * An element carrying a `data-config` attribute, reduced to what the pass
   * reads and writes: `tagName`, the attribute's path, and the `value`,
   * `textContent`, `href`, `target` and `rel` properties.
   */
  datatype Element = Element(
    tag: string,
    path: string,
    value: string,
    text: string,
    href: string,
    target: string,
    rel: string)

  predicate IsFormField(e: Element)
  {
    e.tag == "INPUT" || e.tag == "TEXTAREA"
  }

  predicate IsAnchor(e: Element)
  {
    e.tag == "A"
  }

  // ---------------------------------------------------------------- the e-mail pattern

  /** A character of the class `[^\s@]`. */
  predicate IsPlain(c: char)
  {
    !IsSpace(c) && c != '@'
  }

  predicate PlainExcept(s: string, at: int)
  {
    forall k :: 0 <= k < |s| && k != at ==> IsPlain(s[k])
  }

  /**
   * The regular expression `^[^\s@]+@[^\s@]+\.[^\s@]+$`, by positions: an "@"
   * at `i` and a "." at `j`, each run between them non-empty, and every other
   * character outside `[\s@]`.
   */
  predicate MatchesEmailPattern(s: string)
  {
    exists i, j | 0 < i < |s| && 0 < j < |s| ::
      i + 1 < j < |s| - 1 && s[i] == '@' && s[j] == '.' && PlainExcept(s, i)
  }

  /** One `[^\s@]+` run. */
  ghost predicate PlainRun(x: string)
  {
    x != [] && forall k :: 0 <= k < |x| ==> IsPlain(x[k])
  }

  /** The same regular expression read as a concatenation of three runs. */
  ghost predicate EmailRegex(s: string)
  {
    exists a, b, c :: PlainRun(a) && PlainRun(b) && PlainRun(c) && s == a + "@" + b + "." + c
  }

  /** A positional match splits into the three runs of the regular expression. */
  lemma EmailPatternToRegex(s: string)
    requires MatchesEmailPattern(s)
    ensures EmailRegex(s)
  {
    var i, j :| 0 < i < |s| && 0 < j < |s| &&
      i + 1 < j < |s| - 1 && s[i] == '@' && s[j] == '.' && PlainExcept(s, i);
    var a, b, c := s[..i], s[i + 1..j], s[j + 1..];
    assert s == a + "@" + b + "." + c;
    assert forall k :: 0 <= k < |a| ==> a[k] == s[k];
    assert forall k :: 0 <= k < |b| ==> b[k] == s[i + 1 + k];
    assert forall k :: 0 <= k < |c| ==> c[k] == s[j + 1 + k];
    assert PlainRun(a) && PlainRun(b) && PlainRun(c);
  }

  /** Three runs joined by "@" and "." give a positional match. */
  lemma EmailRegexToPattern(s: string)
    requires EmailRegex(s)
    ensures MatchesEmailPattern(s)
  {
    var a, b, c :| PlainRun(a) && PlainRun(b) && PlainRun(c) && s == a + "@" + b + "." + c;
    var i, j := |a|, |a| + 1 + |b|;
    forall k | 0 <= k < |s| && k != i ensures IsPlain(s[k]) {
      if k < i { assert s[k] == a[k]; }
      else if k < j { assert s[k] == b[k - i - 1]; }
      else if k == j { assert s[k] == '.'; }
      else { assert s[k] == c[k - j - 1]; }
    }
    assert s[i] == '@' && s[j] == '.';
  }

  /** The positional test and the concatenation reading of the regular expression agree. */
  lemma EmailPatternIsRegex(s: string)
    ensures MatchesEmailPattern(s) <==> EmailRegex(s)
  {
    if MatchesEmailPattern(s) {
      EmailPatternToRegex(s);
    }
    if EmailRegex(s) {
      EmailRegexToPattern(s);
    }
  }

  /** A value matching the pattern always contains "@", so the `includes('@')` guard only matters for "email" paths. */
  lemma EmailPatternHasAt(s: string)
    requires MatchesEmailPattern(s)
    ensures '@' in s
  {
    var i, j :| 0 < i < |s| && 0 < j < |s| &&
      i + 1 < j < |s| - 1 && s[i] == '@' && s[j] == '.' && PlainExcept(s, i);
    assert s[i] == '@';
  }

  // ---------------------------------------------------------------- anchor classification

  /** An anchor value treated as an e-mail address. */
  predicate IsEmailLink(path: string, s: string)
  {
    '@' in s && (Contains(AsciiLower(path), "email") || MatchesEmailPattern(s))
  }

  /** An anchor value treated as an external link. */
  predicate IsExternalLink(s: string)
  {
    StartsWith(s, "http://") || StartsWith(s, "https://")
  }

  /** The letters of "email" in either case occupy `p[k..k + 5]`. */
  predicate EmailAt(p: string, k: int)
  {
    0 <= k <= |p| - 5 &&
    forall j :: 0 <= j < 5 ==> p[k + j] == "email"[j] || p[k + j] == "EMAIL"[j]
  }

  /**
   * The path test `configPath.toLowerCase().includes('email')`: some window of
   * the path spells "email" with each letter in either case.
   */
  lemma EmailPathTest(p: string)
    ensures Contains(AsciiLower(p), "email") <==> exists k :: EmailAt(p, k)
  {
    var l := AsciiLower(p);
    ContainsAt(l, "email");
    forall k ensures OccursAt(l, "email", k) <==> EmailAt(p, k) {
      if 0 <= k <= |p| - 5 {
        assert OccursAt(l, "email", k) <==> forall j :: 0 <= j < 5 ==> l[k + j] == "email"[j];
      }
    }
  }

  /** The e-mail test reads: a pattern match, or an "@" in a value bound to an "email" path. */
  lemma EmailLinkCases(path: string, s: string)
    ensures IsEmailLink(path, s) <==>
      MatchesEmailPattern(s) || ('@' in s && Contains(AsciiLower(path), "email"))
  {
    if MatchesEmailPattern(s) {
      EmailPatternHasAt(s);
    }
  }

  /**
   * The e-mail test comes first: a profile URL such as
   * "https://m.to/@al.x" matches the pattern and becomes a
   * "mailto:" link even though it starts with "https://".
   */
  lemma UrlWithHandleIsEmailLink(path: string)
    ensures var s := "https://m.to/@al.x";
      IsExternalLink(s) && IsEmailLink(path, s)
  {
    var s := "https://m.to/@al.x";
    assert s[13] == '@' && s[16] == '.';
    assert PlainExcept(s, 13);
    assert StartsWith(s, "https://");
  }

  // ---------------------------------------------------------------- the binding

  /**
   * What one iteration of the `forEach` in `replacePlaceholders` does to an
   * element, in the source's branch order.
   */
  function Bind(config: Value, e: Element): (r: Element)
    ensures r.tag == e.tag && r.path == e.path
    ensures GetNestedValue(config, e.path) in {None, Some(Null)} ==> r == e
    ensures var v := GetNestedValue(config, e.path);
      v.Some? && v.value != Null && IsFormField(e) ==> r.value == TextOf(v.value) && r.(value := e.value) == e
    ensures var v := GetNestedValue(config, e.path);
      v.Some? && v.value != Null && IsAnchor(e) && IsEmailLink(e.path, ToJsString(v.value)) ==>
        r.href == "mailto:" + ToJsString(v.value) && r.text == ToJsString(v.value) &&
        r.(href := e.href, text := e.text) == e
    ensures var v := GetNestedValue(config, e.path);
      v.Some? && v.value != Null && IsAnchor(e) && !IsEmailLink(e.path, ToJsString(v.value)) && IsExternalLink(ToJsString(v.value)) ==>
        r.href == ToJsString(v.value) && r.target == "_blank" && r.rel == "noopener noreferrer" &&
        r.text == (if Trim(e.text) == "" then ToJsString(v.value) else e.text) &&
        r.value == e.value
    ensures var v := GetNestedValue(config, e.path);
      v.Some? && v.value != Null && IsAnchor(e) && !IsEmailLink(e.path, ToJsString(v.value)) && !IsExternalLink(ToJsString(v.value)) ==>
        r.text == ToJsString(v.value) && r.(text := e.text) == e
    ensures var v := GetNestedValue(config, e.path);
      v.Some? && v.value != Null && !IsFormField(e) && !IsAnchor(e) ==> r.text == TextOf(v.value) && r.(text := e.text) == e
  {
    var value := GetNestedValue(config, e.path);
    if value.None? || value.value == Null then e
    else
      var v := value.value;
      if IsFormField(e) then e.(value := TextOf(v))
      else if IsAnchor(e) then BindAnchor(e, ToJsString(v))
      else e.(text := TextOf(v))
  }

  /**
   * The anchor branch: an e-mail address, an external link, or plain text.
   * It never touches `value`; the text becomes `s` unless an external link
   * finds text already there.
   */
  function BindAnchor(e: Element, s: string): (r: Element)
    ensures r.tag == e.tag && r.path == e.path && r.value == e.value
    ensures r.text == s || (IsExternalLink(s) && Trim(e.text) != "" && r.text == e.text)
    ensures r.href != e.href || r.target != e.target ==> r.href == s || r.href == "mailto:" + s
  {
    if IsEmailLink(e.path, s) then e.(href := "mailto:" + s, text := s)
    else if IsExternalLink(s) then
      e.(href := s, target := "_blank", rel := "noopener noreferrer",
         text := if Trim(e.text) == "" then s else e.text)
    else e.(text := s)
  }

  lemma BindAnchorIdempotent(e: Element, s: string)
    ensures BindAnchor(BindAnchor(e, s), s) == BindAnchor(e, s)
  {
    if !IsEmailLink(e.path, s) && IsExternalLink(s) {
      assert s[0] == 'h';
      TrimNotEmpty(s);
    }
  }

  /** Binding an element a second time changes nothing. */
  lemma BindIdempotent(config: Value, e: Element)
    ensures Bind(config, Bind(config, e)) == Bind(config, e)
  {
    var value := GetNestedValue(config, e.path);
    if value.Some? && value.value != Null && !IsFormField(e) && IsAnchor(e) {
      BindAnchorIdempotent(e, ToJsString(value.value));
    }
  }

  /** The binding of every element, in document order. */
  function BindAll(config: Value, es: seq<Element>): (r: seq<Element>)
    ensures |r| == |es|
    ensures forall i :: 0 <= i < |es| ==> r[i].tag == es[i].tag && r[i].path == es[i].path
  {
    seq(|es|, i requires 0 <= i < |es| => Bind(config, es[i]))
  }

  /** A second pass over the same elements changes none of them. */
  lemma BindAllIdempotent(config: Value, es: seq<Element>)
    ensures BindAll(config, BindAll(config, es)) == BindAll(config, es)
  {
    forall i | 0 <= i < |es|
      ensures BindAll(config, BindAll(config, es))[i] == BindAll(config, es)[i]
    {
      BindIdempotent(config, es[i]);
    }
  }

  /** Elements are bound independently of one another. */
  lemma BindAllAppend(config: Value, a: seq<Element>, b: seq<Element>)
    ensures BindAll(config, a + b) == BindAll(config, a) + BindAll(config, b)
  {
  }

  /** Against the empty configuration `{}` no path resolves, so no element changes. */
  lemma BindAllEmptyConfig(es: seq<Element>)
    ensures BindAll(Obj(map[]), es) == es
  {
    forall i | 0 <= i < |es| ensures GetNestedValue(Obj(map[]), es[i].path) == None {
      var path := es[i].path;
      if path != "" {
        var keys := Split(path, '.');
        assert Step(Some(Obj(map[])), keys[0]) == None;
        FollowUndefined(keys[1..]);
      }
    }
  }

  /** With a falsy configuration no path resolves, so no element changes. */
  lemma BindAllFalsyConfig(config: Value, es: seq<Element>)
    requires !Truthy(config)
    ensures BindAll(config, es) == es
  {
  }
}
