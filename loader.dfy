/**
 * The `ConfigLoader` class: its `config`/`loaded` state, the placeholder pass
 * over the document, and `init`'s gating on the load outcome.
 */
module Loader {
  import opened Wrappers
  import opened Text
  import opened Json
  import opened Path
  import opened Binding
  import opened Chips
  import opened Metadata

  /** The parts of the page the loader reads and writes, as a value. */
  datatype Page = Page(
    elements: seq<Element>,       // the `[data-config]` elements, in document order
    skills: Option<seq<Node>>,    // children of `#skills-container`; None when there is no such element
    interests: Option<seq<Node>>, // children of `#interests-container`
    title: string,                // `document.title`
    metas: seq<Meta>)             // the `meta` elements of the head, in order

  /**
   * `handleArrays` on a page: the first container present (skills before
   * interests) is refilled from the configuration; nothing else changes.
   */
  function ArraysStep(config: Value, p: Page): (r: Page)
    ensures p.skills.Some? ==> r == p.(skills := Some(Rendered(ListEntries(config))))
    ensures p.skills.None? && p.interests.Some? ==> r == p.(interests := Some(Rendered(ListEntries(config))))
    ensures p.skills.None? && p.interests.None? ==> r == p
  {
    var nodes := Rendered(ListEntries(config));
    if p.skills.Some? then p.(skills := Some(nodes))
    else if p.interests.Some? then p.(interests := Some(nodes))
    else p
  }

  /** `setMetadata` on a page: only the title and the head's meta elements change. */
  function MetadataStep(config: Value, p: Page): (r: Page)
    ensures r.elements == p.elements && r.skills == p.skills && r.interests == p.interests
    ensures Site(config).None? ==> r == p
    ensures r.title == if TitleFor(config).Some? then TitleFor(config).value else p.title
    ensures r.metas == if DescriptionFor(config).Some? then Upsert(p.metas, DescriptionFor(config).value) else p.metas
  {
    var p1 := match TitleFor(config) case Some(t) => p.(title := t) case None => p;
    match DescriptionFor(config)
    case Some(c) => p1.(metas := Upsert(p1.metas, c))
    case None => p1
  }

  /** `replacePlaceholders` on a page: nothing without a truthy configuration, else bind, render the list, set metadata. */
  function Pass(config: Value, p: Page): (r: Page)
    ensures !Truthy(config) ==> r == p
    ensures Truthy(config) ==> r.elements == BindAll(config, p.elements)
    ensures Truthy(config) ==>
      r.skills == ArraysStep(config, p).skills && r.interests == ArraysStep(config, p).interests
    ensures Truthy(config) ==> r.title == MetadataStep(config, p).title && r.metas == MetadataStep(config, p).metas
  {
    if !Truthy(config) then p
    else MetadataStep(config, ArraysStep(config, p.(elements := BindAll(config, p.elements))))
  }

  /** Running the pass a second time leaves the page as the first run left it. */
  lemma PassIdempotent(config: Value, p: Page)
    ensures Pass(config, Pass(config, p)) == Pass(config, p)
  {
    if Truthy(config) {
      BindAllIdempotent(config, p.elements);
      match DescriptionFor(config)
      case Some(c) =>
        UpsertIdempotent(p.metas, c);
      case None =>
    }
  }

  /**
   * The second pass that follows the injection of a fragment's elements binds
   * the new elements and leaves everything the first pass produced as it was.
   */
  lemma PassAfterInjection(config: Value, p: Page, injected: seq<Element>)
    ensures var first := Pass(config, p);
      Pass(config, first.(elements := first.elements + injected)) ==
        first.(elements := first.elements + BindAll(config, injected))
  {
    var first := Pass(config, p);
    PassIdempotent(config, p);
    BindAllAppend(config, first.elements, injected);
    if Truthy(config) {
      BindAllIdempotent(config, p.elements);
    } else {
      BindAllFalsyConfig(config, injected);
    }
  }

  /**
   * A pass run with the constructor's empty configuration `{}` — the footer
   * fragment arriving before the configuration, or after a failed load — binds
   * nothing and sets no metadata, but still empties the first list container
   * present and fills it with the "no entries" placeholder.
   */
  lemma EmptyConfigPass(p: Page)
    ensures Pass(Obj(map[]), p) ==
      if p.skills.Some? then p.(skills := Some([Placeholder(NoEntriesText)]))
      else if p.interests.Some? then p.(interests := Some([Placeholder(NoEntriesText)]))
      else p
  {
    var config := Obj(map[]);
    BindAllEmptyConfig(p.elements);
    assert ListEntries(config) == [];
    assert Site(config) == None;
  }

  /** The path "personal.name" reaches the `name` field of the `personal` object. */
  lemma ResolvePersonalName(config: Value, name: Value)
    requires config.Obj? && "personal" in config.fields
    requires config.fields["personal"].Obj? && "name" in config.fields["personal"].fields
    requires config.fields["personal"].fields["name"] == name
    ensures GetNestedValue(config, "personal.name") == Some(name)
  {
    var personal := config.fields["personal"];
    assert "personal.name" == "personal" + "." + "name";
    assert '.' !in "personal" && '.' !in "name";
    assert GetNestedValue(config, "personal") == Some(personal);
    assert GetNestedValue(personal, "name") == Some(name);
    GetNestedValueDotted(config, "personal", "name");
  }

  /**
   * An element bound to "personal.name" that is neither a form field nor an
   * anchor receives the configured name as its text.
   */
  lemma PersonalNameText(config: Value, name: string, e: Element)
    requires config.Obj? && "personal" in config.fields
    requires config.fields["personal"].Obj? && "name" in config.fields["personal"].fields
    requires config.fields["personal"].fields["name"] == Str(name)
    requires e.path == "personal.name" && !IsFormField(e) && !IsAnchor(e)
    ensures Bind(config, e).text == name
  {
    ResolvePersonalName(config, Str(name));
    assert GetNestedValue(config, e.path) == Some(Str(name));
  }

  // ---------------------------------------------------------------- the document

  /** The page, updated in place: the `[data-config]` elements are slots of an array. */
  class Document {
    const elements: array<Element>
    var skillsContainer: Option<seq<Node>>
    var interestsContainer: Option<seq<Node>>
    var title: string
    var metas: seq<Meta>

    constructor(p: Page)
      ensures fresh(elements) && State() == p
    {
      elements := new Element[|p.elements|](i requires 0 <= i < |p.elements| => p.elements[i]);
      skillsContainer, interestsContainer := p.skills, p.interests;
      title, metas := p.title, p.metas;
    }

    function State(): Page
      reads this, elements
    {
      Page(elements[..], skillsContainer, interestsContainer, title, metas)
    }
  }

  /** What fetching and parsing the configuration resource produced. */
  datatype FetchOutcome = Fetched(json: Value) | FetchFailed

  class ConfigLoader {
    var config: Value
    var loaded: bool
    const colorSets: seq<ColorSet> := Palette

    constructor()
      ensures config == Obj(map[]) && !loaded
    {
      config, loaded := Obj(map[]), false;
    }

    /**
     * `loadConfig` with the fetch replaced by its outcome: a parsed document
     * becomes the configuration and is returned; a failure keeps a truthy
     * configuration (or `{}`), clears `loaded` and returns `null`.
     */
    method LoadConfig(outcome: FetchOutcome) returns (r: Value)
      modifies this
      ensures outcome.Fetched? ==> config == outcome.json && loaded && r == config
      ensures outcome.FetchFailed? ==>
        config == (if Truthy(old(config)) then old(config) else Obj(map[])) && !loaded && r == Null
    {
      match outcome
      case Fetched(json) =>
        config := json;
        loaded := true;
        r := config;
      case FetchFailed =>
        config := if Truthy(config) then config else Obj(map[]);
        loaded := false;
        r := Null;
    }

    /** `replacePlaceholders`: update each `[data-config]` element in place, then the list and the metadata. */
    method ReplacePlaceholders(doc: Document)
      modifies doc, doc.elements
      ensures doc.State() == Pass(config, old(doc.State()))
    {
      if !Truthy(config) {
        return;
      }
      var elements := doc.elements;
      var i := 0;
      while i < elements.Length
        invariant 0 <= i <= elements.Length
        invariant forall k :: 0 <= k < i ==> elements[k] == Bind(config, old(elements[k]))
        invariant forall k :: i <= k < elements.Length ==> elements[k] == old(elements[k])
        invariant unchanged(doc)
      {
        elements[i] := UpdateElement(elements[i]);
        i := i + 1;
      }
      assert elements[..] == BindAll(config, old(elements[..]));
      HandleArrays(doc);
      SetMetadata(doc);
    }

    /** The body of the `forEach`: the element as updated from the value its path names. */
    method UpdateElement(element: Element) returns (e: Element)
      ensures e == Bind(config, element)
    {
      e := element;
      var value := GetNestedValue(config, e.path);
      if value.None? || value.value == Null {
        return;
      }
      var v := value.value;
      if e.tag == "INPUT" || e.tag == "TEXTAREA" {
        e := e.(value := TextOf(v));
        return;
      }
      if e.tag == "A" {
        var s := ToJsString(v);
        if '@' in s && (Contains(AsciiLower(e.path), "email") || MatchesEmailPattern(s)) {
          e := e.(href := "mailto:" + s);
          e := e.(text := s);
          return;
        }
        if StartsWith(s, "http://") || StartsWith(s, "https://") {
          e := e.(href := s);
          e := e.(target := "_blank");
          e := e.(rel := "noopener noreferrer");
          if Trim(e.text) == "" {
            e := e.(text := s);
          }
          return;
        }
        e := e.(text := s);
        return;
      }
      e := e.(text := TextOf(v));
    }

    /** `handleArrays`: gather the entries, then clear and refill the first container present. */
    method HandleArrays(doc: Document)
      modifies doc
      ensures doc.State() == ArraysStep(config, old(doc.State()))
    {
      var sources := CollectSources();
      if doc.skillsContainer.None? && doc.interestsContainer.None? {
        return;
      }
      var nodes := RenderNodes(sources);
      if doc.skillsContainer.Some? {
        doc.skillsContainer := Some(nodes);
      } else {
        doc.interestsContainer := Some(nodes);
      }
    }

    /** The `sources` list of `handleArrays`, built by successive pushes. */
    method CollectSources() returns (sources: seq<Value>)
      ensures sources == ListEntries(config)
    {
      sources := [];
      var skills := OwnProperty(config, "skills");
      if skills.Some? && skills.value.Arr? {
        sources := sources + skills.value.items;
      }
      assert sources == ArraySource(skills);
      var interests := OwnProperty(config, "interests");
      if interests.Some? && interests.value.Arr? {
        sources := sources + interests.value.items;
      }
      ghost var front := sources;
      assert front == ArraySource(skills) + ArraySource(interests);
      var personal := OwnProperty(config, "personal");
      if Present(personal) {
        var hobbies := OwnProperty(personal.value, "hobbies");
        if Present(hobbies) {
          if hobbies.value.Arr? {
            sources := sources + hobbies.value.items;
          } else if hobbies.value.Str? {
            var split := HobbyEntries(hobbies.value.s);
            sources := sources + StrValues(split);
          }
        }
      }
      assert sources == front + HobbyValues(HobbySource(config));
    }

    /**
     * The container's children after `innerHTML = ''` and the appends: the
     * placeholder for no entries, else one chip per entry in a `forEach`.
     */
    method RenderNodes(sources: seq<Value>) returns (nodes: seq<Node>)
      ensures nodes == Rendered(sources)
    {
      nodes := [];
      if |sources| == 0 {
        nodes := nodes + [Placeholder(NoEntriesText)];
        return;
      }
      assert |colorSets| == 8;
      var index := 0;
      while index < |sources|
        invariant 0 <= index <= |sources|
        invariant |nodes| == index
        invariant forall k :: 0 <= k < index ==> nodes[k] == Chip(colorSets[k % |colorSets|], TextOf(sources[k]))
      {
        var colorSet := colorSets[index % |colorSets|];
        nodes := nodes + [Chip(colorSet, TextOf(sources[index]))];
        index := index + 1;
      }
    }

    /** `setMetadata`: the title, then the description element, found or created. */
    method SetMetadata(doc: Document)
      modifies doc
      ensures doc.State() == MetadataStep(config, old(doc.State()))
    {
      var site := OwnProperty(config, "site");
      if !Present(site) {
        return;
      }
      var siteTitle := SiteTitle(site.value);
      var personalName := PersonalName(config);
      if Truthy(siteTitle) || Present(personalName) {
        doc.title := ToJsString(siteTitle) + (if Present(personalName) then " - " + ToJsString(personalName.value) else "");
      }
      var desc := OwnProperty(site.value, "description");
      if Present(desc) {
        var meta := FirstDescription(doc.metas);
        if meta.None? {
          doc.metas := doc.metas + [Meta(DescriptionName, "")];
          meta := Some(|doc.metas| - 1);
        }
        doc.metas := doc.metas[meta.value := doc.metas[meta.value].(content := ToJsString(desc.value))];
      }
    }

    /**
     * `init`: load, then run the pass when the load succeeded or a non-empty
     * configuration is still at hand; otherwise the page keeps its static content.
     */
    method Init(outcome: FetchOutcome, doc: Document)
      modifies this, doc, doc.elements
      ensures config == match outcome
        case Fetched(json) => json
        case FetchFailed => if Truthy(old(config)) then old(config) else Obj(map[])
      ensures loaded == outcome.Fetched?
      ensures doc.State() == if loaded || KeyCount(config) > 0 then Pass(config, old(doc.State())) else old(doc.State())
    {
      var _ := LoadConfig(outcome);
      if loaded {
        ReplacePlaceholders(doc);
      } else if KeyCount(config) > 0 {
        ReplacePlaceholders(doc);
      }
    }
  }
}
