# ConfigLoader, modelled in Dafny

This project models the decision logic of `ConfigLoader` (`js/config-loader.js`), the
script of a small portfolio site that loads a JSON configuration and writes its values
into the page. The model covers five things:

- **Dotted-path lookup** (`getNestedValue`): a path such as `personal.name` is split on
  "." and followed one own property at a time.
- **The placeholder pass** (`replacePlaceholders`): every element carrying a
  `data-config` path is updated in place. Form fields get `value`. Anchors become a
  `mailto:` link, an external link or plain text. Every other element gets its text.
- **List rendering** (`handleArrays`): `skills`, `interests` and `personal.hobbies` are
  gathered into one list. A hobbies string is split on "," and each piece is trimmed.
  The list is rendered as colour-cycled chips, or as a single placeholder when empty.
- **Metadata** (`setMetadata`): the document title is set, and exactly one description
  `meta` element is created if none exists, then its content is set.
- **Load gating** (`loadConfig`, `init`): the loader keeps `config` and `loaded` fields,
  and `init` decides whether the pass runs.

The configuration is a JSON `Value` datatype. The page is a `Document` object. Its
`[data-config]` elements are the slots of an array, updated in place. Its two list
containers, its title and its head `meta` elements are fields. `Loader.Page` is the
same page as a value. `Loader.Pass` is the whole pass as a function on that value.
The `ConfigLoader` methods are proved against `Pass` and its parts.

The main results:

- The pass is idempotent (`Loader.PassIdempotent`). The site calls it again whenever
  its footer fragment has been injected (js/components.js:7-10). When `init` has
  already run the pass with the same configuration, that second run binds the new
  elements and changes nothing else (`Loader.PassAfterInjection`).
- That second call is not gated like `init`'s. If the footer arrives before the
  configuration is loaded, or after a failed load, the configuration is still the
  constructor's `{}`, which is truthy. The pass then binds nothing and sets no
  metadata. It does empty the first list container present and writes the "no
  entries" placeholder into it, replacing the page's static list
  (`Loader.EmptyConfigPass`). `init` itself leaves the page alone in that case.
- Dotted paths compose (`Path.GetNestedValueDotted`).
- The positional e-mail test is equivalent to the regular expression read as three
  runs of characters (`Binding.EmailPatternIsRegex`).
- Array indices are matched by exactly their canonical numerals
  (`Text.ParseIndexOfDecimal`, `Text.DecimalOfParseIndex`).
- Hobby entries are never empty, are trimmed and contain no comma.
- Chip colours repeat exactly every eight positions.
- The description upsert leaves at least one, and never an added second, description element.

The e-mail test runs before the URL test. So a value such as
`https://m.to/@al.x`, a profile address containing "@", becomes a `mailto:` link
(`Binding.UrlWithHandleIsEmailLink`). The model keeps this order because the code has it.

Three behaviours of the code a reader might not expect; the model follows the code:

- List entries are arbitrary JSON values, not only strings.
- With no site title but a name, the title is `" - " + name`.
- The list placeholder is rendered only when one of the two containers exists.

## Model

| member | source | states |
|---|---|---|
| `Text.Split` | js/config-loader.js:136 | `split` always yields at least one piece, and no piece contains the separator |
| `Text.JoinSplit` | js/config-loader.js:136 | joining the pieces of a split with the separator gives back the original string |
| `Text.SplitAtSeparator` | js/config-loader.js:136 | splitting `a + sep + b` gives the pieces of `a` followed by those of `b` |
| `Text.SplitWithoutSeparator` | js/config-loader.js:136 | a string without the separator splits into itself alone |
| `Text.Trim` | js/config-loader.js:114 | `trim` gives a slice `s[a..b]` of its input whose cut-off ends `s[..a]` and `s[b..]` are all white space, and which itself neither starts nor ends with white space |
| `Text.TrimEmptyIffBlank` | js/config-loader.js:114 | `trim` gives "" exactly when every character is white space (the test `!textContent.trim()`) |
| `Text.TrimKeepsAbsent` | js/config-loader.js:153 | trimming never introduces a character, so trimmed hobby pieces stay comma-free |
| `Text.TrimIdempotent` | js/config-loader.js:153 | trimming twice is trimming once |
| `Text.ContainsAt` | js/config-loader.js:104 | `includes` holds exactly when the substring occurs at some position |
| `Binding.EmailPathTest` | js/config-loader.js:104 | `configPath.toLowerCase().includes('email')` holds iff some five consecutive characters of the path spell "email" with each letter in either case |
| `Text.Decimal` | js/config-loader.js:137 | the numeral of an index is a non-empty digit string with no leading zero |
| `Text.ParseIndexOfDecimal` | js/config-loader.js:137 | the numeral of an index is recognised as an array-index key for that index |
| `Text.DecimalOfParseIndex` | js/config-loader.js:137 | a key recognised as an index is exactly that index's numeral, so "01" or "1.0" is not an index |
| `Json.Truthy` | js/config-loader.js:135-137 | the falsy values are exactly `null`, `false`, `0` and `""`; every array and object is truthy (the same test guards lines 83, 148, 190, 194 and 199) |
| `Json.ToJsString` | js/config-loader.js:103 | `String(v)` of a string is the string itself, and of `null`, a boolean, a number or an object is never empty |
| `Json.JoinItemsIsJoin` | js/config-loader.js:103 | `String` of an array (`JoinItems`) is `join(",")` of its elements' texts, a `null` element giving "" |
| `Json.TextOfDiffersOnlyOnNull` | js/config-loader.js:123 | the text stored by a `textContent` or `value` assignment (`TextOf`) equals `String(v)` for every value but `null`, which stores "" |
| `Json.OwnProperty` | js/config-loader.js:137 | an object owns exactly its keys and yields the stored value; an array or string yields its length for "length"; `null`, booleans and numbers own nothing |
| `Json.ArrayIndexProperty` | js/config-loader.js:137 | an array owns a key other than "length" exactly when the key is the numeral of an index, and then yields that element |
| `Json.KeyCountEnumerable` | js/config-loader.js:245 | `Object.keys(config).length` (`KeyCount`) is non-zero iff the value has an own property that `Object.keys` lists: an object key, or an array or string index |
| `Json.StringIndexProperty` | js/config-loader.js:137 | a string owns a key other than "length" exactly when the key is the numeral of an index, and then yields the one-character string at that index |
| `Path.Step` | js/config-loader.js:137 | one step of the reduce yields a value only from a truthy current value, and then yields its own property |
| `Path.Follow` | js/config-loader.js:136-138 | the reduce over no segments is its start value; over one or more it yields a value only from a truthy start |
| `Path.GetNestedValue` | js/config-loader.js:134-139 | a falsy object or an empty path gives `undefined`; a path without "." is a single own-property lookup |
| `Path.FollowUndefined` | js/config-loader.js:136-138 | once a step gives `undefined`, the rest of the reduce keeps it |
| `Path.FollowAppend` | js/config-loader.js:136-138 | following segments `a + b` is following `a`, then `b` |
| `Path.FollowPrefixStep` | js/config-loader.js:136-138 | following the first `i + 1` segments is one more step after the first `i` |
| `Path.MissingSegment` | js/config-loader.js:136-138 | if any segment is not an own property of a truthy value, the lookup is `undefined` |
| `Path.GetNestedValueDefined` | js/config-loader.js:134-138 | the lookup yields a value if and only if the object is truthy, the path non-empty and every segment resolves |
| `Path.GetNestedValueDotted` | js/config-loader.js:134-138 | looking up `p.q` equals looking up `p`, then `q` within the result |
| `Binding.EmailPatternIsRegex` | js/config-loader.js:104 | the positional test equals `^[^\s@]+@[^\s@]+\.[^\s@]+$` read as three runs around "@" and "." |
| `Binding.EmailPatternHasAt` | js/config-loader.js:104 | a value matching the pattern contains "@" |
| `Binding.EmailLinkCases` | js/config-loader.js:104 | an anchor value is an e-mail iff it matches the pattern, or it contains "@" and the lower-cased path contains "email" |
| `Binding.UrlWithHandleIsEmailLink` | js/config-loader.js:104-116 | an `https://` value such as "https://m.to/@al.x" passes the e-mail test, which is checked first |
| `Binding.Bind` | js/config-loader.js:86-124 | per element, in branch order: a path giving `undefined` or `null` leaves it unchanged; a form field sets only `value`; an e-mail anchor sets `href` "mailto:"+s and text s only; an external anchor sets href, `_blank` and `noopener noreferrer`, and the text only if blank; other anchors and elements set only the text |
| `Binding.BindAnchor` | js/config-loader.js:102-120 | the anchor branch never changes `value`, tag or path; the text becomes the value's string unless an external link finds non-blank text; a changed `href` is the value or "mailto:" plus it |
| `Binding.BindAnchorIdempotent` | js/config-loader.js:102-120 | applying the anchor branch twice with the same value is applying it once |
| `Binding.BindIdempotent` | js/config-loader.js:86-124 | binding an element a second time changes nothing |
| `Binding.BindAllIdempotent` | js/config-loader.js:86-124 | a second binding pass over the same elements changes none of them |
| `Binding.BindAll` | js/config-loader.js:85-86 | the `forEach` gives one bound element per `[data-config]` element, each keeping its tag and path, in document order |
| `Binding.BindAllAppend` | js/config-loader.js:86 | elements are bound independently, so binding `a + b` is binding `a` and `b` |
| `Binding.BindAllFalsyConfig` | js/config-loader.js:135 | with a falsy configuration no path resolves and no element changes |
| `Binding.BindAllEmptyConfig` | js/config-loader.js:86-93 | against the empty configuration `{}` no path resolves and no element changes |
| `Chips.PaletteDistinct` | js/config-loader.js:18-59 | the eight colour sets are pairwise distinct |
| `Chips.TrimmedPiecesShape` | js/config-loader.js:153 | after `map(trim).filter(Boolean)` every entry is non-empty and trimmed; comma-free pieces stay comma-free |
| `Chips.TrimmedPiecesAppend` | js/config-loader.js:153 | trimming and filtering `a + b` gives the result for `a` followed by that for `b` |
| `Chips.TrimmedPieces` | js/config-loader.js:153 | `map(trim).filter(Boolean)` never yields more entries than there are pieces |
| `Chips.HobbyEntries` | js/config-loader.js:153 | every entry of a comma-separated hobbies string is non-empty, trimmed and comma-free |
| `Chips.HobbyEntriesSingle` | js/config-loader.js:153 | a string without commas gives its trimmed self, or nothing when blank |
| `Chips.HobbyEntriesAppend` | js/config-loader.js:153 | the entries of `a + "," + b` are those of `a` followed by those of `b` |
| `Chips.ListEntries` | js/config-loader.js:144-156 | the list is the `skills` array, then `interests` (each only when an array), then the hobbies: an array's elements or a string's entries |
| `Chips.ChipsFrom` | js/config-loader.js:172-185 | one chip per entry, the chip at list position `i` coloured `colorSets[i mod 8]` with the entry's text |
| `Chips.Rendered` | js/config-loader.js:161-185 | the container holds the placeholder alone for an empty list, else exactly one chip per entry, chip `i` coloured `colorSets[i mod 8]` |
| `Chips.ChipColorsMatch` | js/config-loader.js:173 | two chips share a colour iff their positions agree modulo 8 |
| `Metadata.Site` | js/config-loader.js:190 | a site is found iff `config.site` is truthy, and it is `config.site` |
| `Metadata.TitleFor` | js/config-loader.js:192-196 | a title is assigned iff a site exists and its title or the name is truthy; it is the site title, then " - " and the name when the name is truthy |
| `Metadata.DescriptionFor` | js/config-loader.js:198-206 | a description is written iff there is a site and `site.description` is truthy; the content is `String(site.description)` |
| `Metadata.FirstDescription` | js/config-loader.js:200 | the query finds the first `meta` named "description", or reports that none exists |
| `Metadata.Upsert` | js/config-loader.js:200-206 | the upsert adds one element exactly when no description element exists, and keeps the name of every existing element |
| `Metadata.DescriptionCountUpdate` | js/config-loader.js:206 | changing an element's content keeps the number of description elements |
| `Metadata.DescriptionCountZero` | js/config-loader.js:200-201 | there are no description elements iff no element is named "description" |
| `Metadata.UpsertCount` | js/config-loader.js:199-207 | after the upsert there is one description element if there were none, otherwise as many as before |
| `Metadata.UpsertEffect` | js/config-loader.js:199-207 | the first description element, existing or appended, carries the new content; every other element is unchanged |
| `Metadata.FirstDescriptionUnique` | js/config-loader.js:200 | an element named "description" with none before it is the one the query finds |
| `Metadata.UpsertIdempotent` | js/config-loader.js:199-207 | upserting the same description twice is upserting it once |
| `Loader.ArraysStep` | js/config-loader.js:158-185 | only the first container present, skills before interests, is replaced, with the rendering of the list; without a container the page is unchanged |
| `Loader.MetadataStep` | js/config-loader.js:189-208 | only the title and the meta elements change; without a site nothing changes |
| `Loader.Pass` | js/config-loader.js:82-131 | a falsy configuration leaves the page alone; otherwise the elements are the bound elements, the containers are as `handleArrays` leaves them and the title and metas as `setMetadata` leaves them, the three steps touching disjoint parts |
| `Loader.PassIdempotent` | js/config-loader.js:82-131 | running the whole pass twice leaves the page as one run does |
| `Loader.PassAfterInjection` | js/components.js:7-10 | re-running the pass after a fragment's elements are added binds those elements and keeps the rest of the page |
| `Loader.EmptyConfigPass` | js/config-loader.js:142-170 | a pass with the empty configuration `{}` binds nothing and sets no metadata, but replaces the first list container present with the "no entries" placeholder alone |
| `Loader.ResolvePersonalName` | js/config-loader.js:134-138 | the path "personal.name" reaches the `name` field of the `personal` object |
| `Loader.PersonalNameText` | js/config-loader.js:122-123 | a plain element bound to "personal.name" receives the configured name as its text |
| `Loader.Document.constructor` | js/config-loader.js:85 | a document holds the given elements, containers, title and meta elements |
| `Loader.ConfigLoader.constructor` | js/config-loader.js:13-16 | a new loader has the empty configuration `{}` and is not loaded |
| `Loader.ConfigLoader.LoadConfig` | js/config-loader.js:62-79 | on success the parsed document becomes the configuration and is returned, and `loaded` is set; on failure a truthy configuration is kept (else `{}`), `loaded` is cleared and `null` is returned |
| `Loader.ConfigLoader.ReplacePlaceholders` | js/config-loader.js:82-131 | the document afterwards is `Pass` of the configuration applied to the document before |
| `Loader.ConfigLoader.UpdateElement` | js/config-loader.js:87-123 | the loop body computes exactly `Bind` of the element |
| `Loader.ConfigLoader.HandleArrays` | js/config-loader.js:142-186 | the document afterwards is `ArraysStep` of the document before |
| `Loader.ConfigLoader.CollectSources` | js/config-loader.js:144-156 | the pushes build exactly `ListEntries` of the configuration |
| `Loader.ConfigLoader.RenderNodes` | js/config-loader.js:161-185 | clearing and appending in the indexed loop builds exactly `Rendered` of the list |
| `Loader.ConfigLoader.SetMetadata` | js/config-loader.js:189-208 | the document afterwards is `MetadataStep` of the document before |
| `Loader.ConfigLoader.Init` | js/config-loader.js:238-254 | after loading, the pass runs iff the load succeeded or the configuration has keys; otherwise the page keeps its static content |

## Left out

- Fetching, URL resolution, the HTTP status check and JSON parsing in `loadConfig` (js/config-loader.js:62-79) are network I/O. They become the `FetchOutcome` parameter. The console messages are not modelled.
- `ensureKeyboardBehavior` (js/config-loader.js:215-235) wires event listeners and synthetic clicks. That is UI behaviour outside this model, so `Init` does not call it.
- `getConfig` (js/config-loader.js:210-212) only returns the field.
- The page-lifecycle bootstrap and the `window.configLoader` global (js/config-loader.js:257-267) are not modelled.
- js/components.js: `loadComponent` is a fetch plus an `innerHTML` injection. Only its second call of the pass is modelled, by `Loader.PassAfterInjection`.
- The Tailwind class strings (js/config-loader.js:18-59, 166, 177, 180) are left out. A colour set keeps only its name; the placeholder keeps only its text.
- Browser DOM semantics are not modelled: `querySelectorAll`, `getElementById` and `createElement`. The bound elements are an array of records. A container is its list of children. The head's description elements are a sequence of `meta` records; `meta` elements outside the head are not considered.
- `Loader.Page`: the page parts are assumed not to alias. No bound element lies inside another bound element or a list container, and no bound element is the `<title>`. The model does not capture two effects of such aliasing:
  - A `textContent` write (js/config-loader.js:106, 114, 118, 123) detaches bound descendants. The list taken at line 85 still updates them, but the updates are invisible, and a later pass no longer finds them. The `trim()` test at line 114 also reads the descendants' text, where the model reads only the anchor's own text.
  - Binding the `<title>` element changes `document.title`, which the model keeps as a separate field.
- Json.ToJsString: the model gives "[object Object]" for every object, but `String()` throws a TypeError for an object with its own `toString` key, such as `{"toString": 1}` from the parsed document. That happens at js/config-loader.js:103, 123, 181, 195 and 206, and through `join` for such an object inside an array. The source then aborts the pass: later elements stay unbound, `handleArrays` and `setMetadata` do not run, and `init` rejects before `ensureKeyboardBehavior`. `Binding.Bind`, `Chips.ChipsFrom`, `Metadata.TitleFor` and `Metadata.DescriptionFor` inherit this gap. The model covers configurations without such objects; it has no error outcome for the pass.
- The asynchronous interleaving of the two loaders is not modelled.
- JSON numbers are integers here. Fractions, and the exponent notation `String(n)` uses from 1e21 upwards, are not modelled.
- Strings are sequences of Unicode scalar values, whereas JavaScript indexes UTF-16 code units. This only matters for the index and `length` properties of strings, and for non-BMP characters.
- `toLowerCase` is modelled on ASCII letters only. This is exact for the "includes 'email'" test: the only other character whose lower case contains one of those letters (U+0130) lowers to "i" plus a combining dot, which can never precede the "l".
- Browser-side normalisation of assigned values is not modelled: input `value` sanitisation, the whitespace collapsing of the `document.title` getter, and URL resolution of `href`. The model records the assigned strings.
- Property reads such as `config.skills` are modelled as own-property reads. None of the names read (`skills`, `interests`, `personal`, `hobbies`, `site`, `title`, `name`, `description`) is inherited by plain JSON values.
- The exceptions the code can never reach are not modelled: `Object.keys(null)` in `init`, and property reads on a `null` configuration after the `if (!this.config)` guard.
