/**
 * `handleArrays`: the list entries gathered from `skills`, `interests` and
 * `personal.hobbies`, and the chips rendered from them.
 */
module Chips {
  import opened Wrappers
  import opened Text
  import opened Json

  /** A colour preset of `colorSets`; only its position matters to the rendering. */
  datatype ColorSet = ColorSet(name: string)

  const Palette: seq<ColorSet> := [
    ColorSet("blue"), ColorSet("green"), ColorSet("purple"), ColorSet("yellow"),
    ColorSet("pink"), ColorSet("indigo"), ColorSet("cyan"), ColorSet("red")
  ]

  /** The text of the placeholder shown when there are no entries. */
  const NoEntriesText: string := "Keine Eintr\U{00E4}ge vorhanden."

  /** A child of the list container. */
  datatype Node =
    | Chip(color: ColorSet, text: string)   // a styled `div` holding a `span` with the entry's text
    | Placeholder(text: string)              // the grey "no entries" `div`

  lemma PaletteDistinct(a: nat, b: nat)
    requires a < |Palette| && b < |Palette|
    ensures Palette[a] == Palette[b] <==> a == b
  {
  }

  // ---------------------------------------------------------------- gathering

  /** `Array.isArray(x) ? x : []` for a property read. */
  function ArraySource(o: Option<Value>): seq<Value>
  {
    if o.Some? && o.value.Arr? then o.value.items else []
  }

  /** `.map(s => s.trim()).filter(Boolean)` over the pieces of a split. */
  function TrimmedPieces(pieces: seq<string>): (r: seq<string>)
    ensures |r| <= |pieces|
    decreases |pieces|
  {
    if pieces == [] then []
    else
      var t := Trim(pieces[0]);
      var rest := TrimmedPieces(pieces[1..]);
      if t == "" then rest else [t] + rest
  }

  /** Every kept piece is non-empty and trimmed, and commas never appear that were not already there. */
  lemma {:induction false} TrimmedPiecesShape(pieces: seq<string>)
    ensures forall i :: 0 <= i < |TrimmedPieces(pieces)| ==>
      TrimmedPieces(pieces)[i] != "" && IsTrimmed(TrimmedPieces(pieces)[i])
    ensures (forall j :: 0 <= j < |pieces| ==> ',' !in pieces[j]) ==>
      forall i :: 0 <= i < |TrimmedPieces(pieces)| ==> ',' !in TrimmedPieces(pieces)[i]
    decreases |pieces|
  {
    if pieces != [] {
      TrimmedPiecesShape(pieces[1..]);
      TrimKeepsAbsent(pieces[0], ',');
    }
  }

  lemma {:induction false} TrimmedPiecesAppend(a: seq<string>, b: seq<string>)
    ensures TrimmedPieces(a + b) == TrimmedPieces(a) + TrimmedPieces(b)
    decreases |a|
  {
    if a != [] {
      assert (a + b)[0] == a[0];
      assert (a + b)[1..] == a[1..] + b;
      TrimmedPiecesAppend(a[1..], b);
      var t := Trim(a[0]);
      if t != "" {
        assert [t] + (TrimmedPieces(a[1..]) + TrimmedPieces(b)) == [t] + TrimmedPieces(a[1..]) + TrimmedPieces(b);
      }
    } else {
      assert a + b == b;
    }
  }

  /**
   * A comma-separated hobbies string: split on ",", trim each piece, drop the
   * empty ones. Every entry is non-empty, trimmed and free of commas.
   */
  function HobbyEntries(s: string): (r: seq<string>)
    ensures forall i :: 0 <= i < |r| ==> r[i] != "" && IsTrimmed(r[i]) && ',' !in r[i]
  {
    TrimmedPiecesShape(Split(s, ','));
    TrimmedPieces(Split(s, ','))
  }

  /** Entries of a string with no comma: its trimmed self, unless blank. */
  lemma HobbyEntriesSingle(s: string)
    requires ',' !in s
    ensures HobbyEntries(s) == if Trim(s) == "" then [] else [Trim(s)]
  {
    SplitWithoutSeparator(s, ',');
    assert Split(s, ',')[1..] == [];
    assert TrimmedPieces(Split(s, ',')) ==
      (if Trim(s) == "" then TrimmedPieces([]) else [Trim(s)] + TrimmedPieces([]));
  }

  /** The entries of "a,b" are those of "a" followed by those of "b". */
  lemma HobbyEntriesAppend(a: string, b: string)
    ensures HobbyEntries(a + "," + b) == HobbyEntries(a) + HobbyEntries(b)
  {
    SplitAtSeparator(a, b, ',');
    TrimmedPiecesAppend(Split(a, ','), Split(b, ','));
  }

  function StrValues(xs: seq<string>): (r: seq<Value>)
    ensures |r| == |xs| && forall i :: 0 <= i < |xs| ==> r[i] == Str(xs[i])
  {
    seq(|xs|, i requires 0 <= i < |xs| => Str(xs[i]))
  }

  /** What `personal.hobbies` contributes: an array's elements, a string's entries, otherwise nothing. */
  function HobbySource(config: Value): Option<Value>
  {
    var personal := OwnProperty(config, "personal");
    if Present(personal) then
      var hobbies := OwnProperty(personal.value, "hobbies");
      if Present(hobbies) then hobbies else None
    else None
  }

  function HobbyValues(hobbies: Option<Value>): seq<Value>
  {
    match hobbies
    case Some(Arr(items)) => items
    case Some(Str(s)) => StrValues(HobbyEntries(s))
    case _ => []
  }

  /**
   * The `sources` list: `skills`, then `interests` (each only when it is an
   * array), then the hobbies.
   */
  function ListEntries(config: Value): (r: seq<Value>)
    ensures var front := ArraySource(OwnProperty(config, "skills")) + ArraySource(OwnProperty(config, "interests"));
      |front| <= |r| && r[..|front|] == front &&
      match HobbySource(config)
      case Some(Str(h)) => r[|front|..] == StrValues(HobbyEntries(h))
      case Some(Arr(items)) => r[|front|..] == items
      case _ => |r| == |front|
  {
    var front := ArraySource(OwnProperty(config, "skills")) + ArraySource(OwnProperty(config, "interests"));
    var hobbies := HobbyValues(HobbySource(config));
    assert (front + hobbies)[..|front|] == front;
    assert (front + hobbies)[|front|..] == hobbies;
    front + hobbies
  }

  // ---------------------------------------------------------------- rendering

  /** Chips for `entries`, the first one at position `start` of the list. */
  function ChipsFrom(entries: seq<Value>, start: nat): (r: seq<Node>)
    ensures |r| == |entries|
    ensures forall i :: 0 <= i < |entries| ==>
      r[i] == Chip(Palette[(start + i) % |Palette|], TextOf(entries[i]))
    decreases |entries|
  {
    if entries == [] then []
    else [Chip(Palette[start % |Palette|], TextOf(entries[0]))] + ChipsFrom(entries[1..], start + 1)
  }

  /**
   * The container's children after `handleArrays`: the placeholder alone for
   * no entries, otherwise one chip per entry, chip `i` coloured `colorSets[i % 8]`.
   */
  function Rendered(entries: seq<Value>): (r: seq<Node>)
    ensures entries == [] ==> r == [Placeholder(NoEntriesText)]
    ensures entries != [] ==>
      (|r| == |entries| && forall i :: 0 <= i < |entries| ==> r[i] == Chip(Palette[i % 8], TextOf(entries[i])))
  {
    if entries == [] then [Placeholder(NoEntriesText)] else ChipsFrom(entries, 0)
  }

  /** Two chips share a colour exactly when their positions agree modulo the palette size. */
  lemma ChipColorsMatch(entries: seq<Value>, i: nat, j: nat)
    requires i < |entries| && j < |entries|
    ensures Rendered(entries)[i].color == Rendered(entries)[j].color <==> i % 8 == j % 8
  {
    PaletteDistinct(i % 8, j % 8);
  }
}
