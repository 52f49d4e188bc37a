/** `setMetadata`: the page title and the upserted description meta element. */
module Metadata {
  import opened Wrappers
  import opened Text
  import opened Json

  /** A `meta` element of the document head: its `name` and `content`. */
  datatype Meta = Meta(name: string, content: string)

  /** `config.site`, when it is truthy. */
  function Site(config: Value): (r: Option<Value>)
    ensures r.Some? <==> Present(OwnProperty(config, "site"))
    ensures r.Some? ==> r == OwnProperty(config, "site")
  {
    var site := OwnProperty(config, "site");
    if Present(site) then site else None
  }

  /** `config.site.title || ''`. */
  function SiteTitle(site: Value): Value
  {
    var title := OwnProperty(site, "title");
    if Present(title) then title.value else Str("")
  }

  /** `config.personal ? config.personal.name : ''` (which may be `undefined`). */
  function PersonalName(config: Value): Option<Value>
  {
    var personal := OwnProperty(config, "personal");
    if Present(personal) then OwnProperty(personal.value, "name") else Some(Str(""))
  }

  /**
   * The string assigned to `document.title`, if one is assigned: only with a
   * site section and a truthy title or name; the name, when truthy, follows
   * " - ".
   */
  function TitleFor(config: Value): (r: Option<string>)
    ensures r.Some? <==>
      Site(config).Some? && (Truthy(SiteTitle(Site(config).value)) || Present(PersonalName(config)))
    ensures r.Some? && Present(PersonalName(config)) ==>
      r.value == ToJsString(SiteTitle(Site(config).value)) + " - " + ToJsString(PersonalName(config).value)
    ensures r.Some? && !Present(PersonalName(config)) ==>
      r.value == ToJsString(SiteTitle(Site(config).value))
  {
    match Site(config)
    case None => None
    case Some(site) =>
      var siteTitle := SiteTitle(site);
      var name := PersonalName(config);
      if Truthy(siteTitle) || Present(name) then
        Some(ToJsString(siteTitle) + (if Present(name) then " - " + ToJsString(name.value) else ""))
      else None
  }

  /** The content given to the description meta element, if the site has a truthy description. */
  function DescriptionFor(config: Value): (r: Option<string>)
    ensures r.Some? <==> Site(config).Some? && Present(OwnProperty(Site(config).value, "description"))
    ensures r.Some? ==> r.value == ToJsString(OwnProperty(Site(config).value, "description").value)
  {
    match Site(config)
    case None => None
    case Some(site) =>
      var desc := OwnProperty(site, "description");
      if Present(desc) then Some(ToJsString(desc.value)) else None
  }

  // ---------------------------------------------------------------- the description element

  const DescriptionName: string := "description"

  /** `querySelector('meta[name="description"]')`: the first description element. */
  function FirstDescription(metas: seq<Meta>): (r: Option<nat>)
    ensures r.Some? ==>
      (r.value < |metas| && metas[r.value].name == DescriptionName &&
       forall k :: 0 <= k < r.value ==> metas[k].name != DescriptionName)
    ensures r.None? ==> forall k :: 0 <= k < |metas| ==> metas[k].name != DescriptionName
    decreases |metas|
  {
    if metas == [] then None
    else if metas[0].name == DescriptionName then Some(0)
    else match FirstDescription(metas[1..])
      case None => None
      case Some(i) => Some(i + 1)
  }

  /** Find the description element, creating and appending it if absent, and set its content. */
  function Upsert(metas: seq<Meta>, content: string): (r: seq<Meta>)
    ensures |r| == if FirstDescription(metas).None? then |metas| + 1 else |metas|
    ensures forall k :: 0 <= k < |metas| ==> r[k].name == metas[k].name
  {
    match FirstDescription(metas)
    case Some(i) => metas[i := metas[i].(content := content)]
    case None => metas + [Meta(DescriptionName, content)]
  }

  /** The number of description elements. */
  function DescriptionCount(metas: seq<Meta>): nat
    decreases |metas|
  {
    if metas == [] then 0
    else DescriptionCount(metas[..|metas| - 1]) + (if metas[|metas| - 1].name == DescriptionName then 1 else 0)
  }

  lemma {:induction false} DescriptionCountUpdate(metas: seq<Meta>, i: nat, m: Meta)
    requires i < |metas| && m.name == metas[i].name
    ensures DescriptionCount(metas[i := m]) == DescriptionCount(metas)
    decreases |metas|
  {
    var n := |metas|;
    if i < n - 1 {
      assert metas[i := m][..n - 1] == metas[..n - 1][i := m];
      DescriptionCountUpdate(metas[..n - 1], i, m);
    } else {
      assert metas[i := m][..n - 1] == metas[..n - 1];
    }
  }

  lemma {:induction false} DescriptionCountZero(metas: seq<Meta>)
    ensures DescriptionCount(metas) == 0 <==> forall k :: 0 <= k < |metas| ==> metas[k].name != DescriptionName
    decreases |metas|
  {
    if metas != [] {
      var n := |metas|;
      DescriptionCountZero(metas[..n - 1]);
      assert forall k :: 0 <= k < n - 1 ==> metas[..n - 1][k] == metas[k];
    }
  }

  /**
   * After the upsert there is at least one description element, and exactly
   * one when there was at most one before: one is added only when none exists.
   */
  lemma UpsertCount(metas: seq<Meta>, content: string)
    ensures DescriptionCount(Upsert(metas, content)) ==
      if DescriptionCount(metas) == 0 then 1 else DescriptionCount(metas)
  {
    DescriptionCountZero(metas);
    match FirstDescription(metas)
    case Some(i) =>
      DescriptionCountUpdate(metas, i, metas[i].(content := content));
    case None =>
      var r := metas + [Meta(DescriptionName, content)];
      assert r[..|r| - 1] == metas;
      assert DescriptionCount(r) == DescriptionCount(metas) + 1;
  }

  /**
   * The upsert sets the content of the first description element (appended if
   * there was none) and leaves every other element as it was.
   */
  lemma UpsertEffect(metas: seq<Meta>, content: string)
    ensures var r := Upsert(metas, content);
      FirstDescription(r).Some? && r[FirstDescription(r).value] == Meta(DescriptionName, content)
    ensures var r := Upsert(metas, content);
      |metas| <= |r| <= |metas| + 1 &&
      forall k :: 0 <= k < |metas| && Some(k) != FirstDescription(r) ==> r[k] == metas[k]
  {
    var r := Upsert(metas, content);
    match FirstDescription(metas)
    case Some(i) =>
      assert FirstDescription(r) == Some(i) by {
        FirstDescriptionUnique(r, i);
      }
    case None =>
      FirstDescriptionUnique(r, |metas|);
  }

  lemma FirstDescriptionUnique(metas: seq<Meta>, i: nat)
    requires i < |metas| && metas[i].name == DescriptionName
    requires forall k :: 0 <= k < i ==> metas[k].name != DescriptionName
    ensures FirstDescription(metas) == Some(i)
  {
  }

  /** Upserting the same content again changes nothing. */
  lemma UpsertIdempotent(metas: seq<Meta>, content: string)
    ensures Upsert(Upsert(metas, content), content) == Upsert(metas, content)
  {
    UpsertEffect(metas, content);
  }
}
