/** The capture's own masker over dotted paths (`http_cases.py`), and why it agrees with the
    generator's masker on every path both can express. */
module HttpMasking {
  import opened Wrappers
  import opened Identifiers
  import opened Texts
  import opened Json
  import opened MaskLaws
  import opened JsonPaths
  import opened Declarations

  // ----- Dotted paths -----

  function KeptParts(parts: seq<string>): seq<string> {
    if parts == [] then []
    else (if parts[0] != "" && parts[0] != "$" then [parts[0]] else []) + KeptParts(parts[1..])
  }

  function Parts(path: string): seq<string> {
    KeptParts(Split(path, '.'))
  }

  predicate EndsInStar(part: string) {
    |part| >= 3 && part[|part| - 3..] == "[*]"
  }

  function NameOf(part: string): string {
    if EndsInStar(part) then part[..|part| - 3] else part
  }

  // ----- Masking by a dotted path -----

  function MaskParts(doc: Json, parts: seq<string>): Json
    decreases |parts|
  {
    if parts == [] then doc
    else
      var name, rest := NameOf(parts[0]), parts[1..];
      if name == "*" then
        if doc.Array? then Array(seq(|doc.items|, i requires 0 <= i < |doc.items| => MaskParts(doc.items[i], rest))) else doc
      else if !doc.Object? || name !in doc.members then doc
      else
        var child := doc.members[name];
        if EndsInStar(parts[0]) then
          if !child.Array? then doc
          else Object(doc.members[name := Array(seq(|child.items|, i requires 0 <= i < |child.items| => MaskParts(child.items[i], rest)))])
        else if rest == [] then Object(doc.members[name := PLACEHOLDER])
        else Object(doc.members[name := MaskParts(child, rest)])
  }

  function Flatten(lists: seq<seq<Json>>): seq<Json> {
    if lists == [] then [] else Flatten(lists[..|lists| - 1]) + lists[|lists| - 1]
  }

  /** The values the masker appends to its sink, in the order it replaces them. */
  function Sink(doc: Json, parts: seq<string>): seq<Json>
    decreases |parts|
  {
    if parts == [] then []
    else
      var name, rest := NameOf(parts[0]), parts[1..];
      if name == "*" then
        if doc.Array? then Flatten(seq(|doc.items|, i requires 0 <= i < |doc.items| => Sink(doc.items[i], rest))) else []
      else if !doc.Object? || name !in doc.members then []
      else
        var child := doc.members[name];
        if EndsInStar(parts[0]) then
          if !child.Array? then []
          else Flatten(seq(|child.items|, i requires 0 <= i < |child.items| => Sink(child.items[i], rest)))
        else if rest == [] then [child]
        else Sink(child, rest)
  }

  // ----- The places a path replaces, in order -----

  function HitPlaces(doc: Json, segments: seq<Segment>): seq<Place>
    decreases |segments|, 0
  {
    if segments == [] then []
    else
      match segments[0]
      case Wild => if doc.Array? then ItemHits(doc.items, segments[1..]) else []
      case Index(digits) =>
        if doc.Array? && DigitsValue(digits) < |doc.items|
        then Below(Item(DigitsValue(digits)), HitPlaces(doc.items[DigitsValue(digits)], segments[1..])) else []
      case Key(name) =>
        if !doc.Object? || name !in doc.members then []
        else if |segments| == 1 then [[Field(name)]]
        else Below(Field(name), HitPlaces(doc.members[name], segments[1..]))
  }

  function ItemHits(items: seq<Json>, rest: seq<Segment>): seq<Place>
    decreases |rest|, 1, |items|
  {
    if items == [] then []
    else ItemHits(items[..|items| - 1], rest) + Below(Item(|items| - 1), HitPlaces(items[|items| - 1], rest))
  }

  /** The enumeration is exact: every replaced place, and each only once. */
  lemma {:induction false} HitPlacesAreTheHits(doc: Json, segments: seq<Segment>, p: Place)
    ensures DistinctPlaces(HitPlaces(doc, segments))
    ensures p in HitPlaces(doc, segments) <==> Hit(doc, segments, p)
    decreases |segments|, 0
  {
    hide At, DigitsValue;
    if segments != [] && p != [] && |segments| > 1 {
      HitBelow(doc, segments, p);
    }
    if segments != [] {
      match segments[0]
      case Wild =>
        if doc.Array? {
          ItemHitsAreTheHits(doc.items, segments[1..], p);
        }
        if |segments| == 1 && p != [] {
          assert !EndsInKey(segments);
        }
      case Index(digits) =>
        var n := DigitsValue(digits);
        if doc.Array? && n < |doc.items| {
          HitPlacesAreTheHits(doc.items[n], segments[1..], if p == [] then [] else p[1..]);
          BelowMembers(Item(n), HitPlaces(doc.items[n], segments[1..]), p);
        }
        if |segments| == 1 {
          assert !EndsInKey(segments);
        }
      case Key(name) =>
        if doc.Object? && name in doc.members && |segments| > 1 {
          HitPlacesAreTheHits(doc.members[name], segments[1..], if p == [] then [] else p[1..]);
          BelowMembers(Field(name), HitPlaces(doc.members[name], segments[1..]), p);
        }
        if |segments| == 1 && |p| == 1 {
          assert p == [p[0]];
          OneSegmentHit(doc, segments, p[0]);
        }
    }
  }

  lemma {:induction false} ItemHitsAreTheHits(items: seq<Json>, rest: seq<Segment>, p: Place)
    ensures DistinctPlaces(ItemHits(items, rest))
    ensures p in ItemHits(items, rest) <==> p != [] && p[0].Item? && p[0].index < |items| && Hit(items[p[0].index], rest, p[1..])
    decreases |rest|, 1, |items|
  {
    hide At, Hit;
    if items != [] {
      var earlier, n := items[..|items| - 1], |items| - 1;
      var before, last := ItemHits(earlier, rest), Below(Item(n), HitPlaces(items[n], rest));
      ItemHitsAreTheHits(earlier, rest, p);
      HitPlacesAreTheHits(items[n], rest, if p == [] then [] else p[1..]);
      BelowMembers(Item(n), HitPlaces(items[n], rest), p);
      forall q | q in before
        ensures q !in last
      {
        ItemHitsAreTheHits(earlier, rest, q);
        BelowMembers(Item(n), HitPlaces(items[n], rest), q);
      }
      ConcatIsDistinct(before, last);
    }
  }

  // ----- The paths both maskers read -----

  /** A name, and whether `[*]` follows it. */
  datatype Stop = Stop(name: string, starred: bool)

  /** Identifier names, and at most one `[*]` after each. */
  predicate Common(stops: seq<Stop>) {
    forall i :: 0 <= i < |stops| ==> IsName(stops[i].name)
  }

  function PartOf(stop: Stop): string {
    if stop.starred then stop.name + "[*]" else stop.name
  }

  function PartsFor(stops: seq<Stop>): (r: seq<string>)
    ensures |r| == |stops|
  {
    seq(|stops|, i requires 0 <= i < |stops| => PartOf(stops[i]))
  }

  function SegmentsFor(stops: seq<Stop>): seq<Segment> {
    if stops == [] then []
    else [Key(stops[0].name)] + (if stops[0].starred then [Wild] else []) + SegmentsFor(stops[1..])
  }

  function TextFor(stops: seq<Stop>): string {
    "$" + Joined(PartsFor(stops), '.')
  }

  lemma PartIsPlain(stop: Stop)
    requires IsName(stop.name)
    ensures Free(PartOf(stop), '.') && PartOf(stop) != "" && PartOf(stop) != "$" && stop.name != "*"
    ensures EndsInStar(PartOf(stop)) == stop.starred && NameOf(PartOf(stop)) == stop.name
  {
    if stop.starred {
      var part := PartOf(stop);
      assert part[|part| - 3..] == "[*]" && part[..|part| - 3] == stop.name;
    } else if |stop.name| >= 3 {
      assert IsNameChar(stop.name[|stop.name| - 3]);
      assert stop.name[|stop.name| - 3..][0] == stop.name[|stop.name| - 3];
    }
  }

  lemma {:induction false} AllPartsKept(parts: seq<string>)
    requires forall i :: 0 <= i < |parts| ==> parts[i] != "" && parts[i] != "$"
    ensures KeptParts(parts) == parts
  {
    if parts != [] {
      AllPartsKept(parts[1..]);
    }
  }

  /** Split at dots, the text gives the parts back. */
  lemma PartsReadText(stops: seq<Stop>)
    requires forall i :: 0 <= i < |stops| ==> IsName(stops[i].name)
    ensures Parts(TextFor(stops)) == PartsFor(stops)
  {
    var parts := PartsFor(stops);
    forall i | 0 <= i < |stops|
      ensures Free(parts[i], '.') && parts[i] != "" && parts[i] != "$"
    {
      PartIsPlain(stops[i]);
    }
    SplitUndoesJoin("$", parts, '.');
    AllPartsKept(parts);
    assert (["$"] + parts)[1..] == parts;
  }

  lemma ShownStop(name: string, starred: bool, rest: seq<Segment>)
    ensures ShowAll([Key(name)] + (if starred then [Wild] else []) + rest) ==
            "." + (if starred then name + "[*]" else name) + ShowAll(rest)
  {
  }

  lemma {:induction false} TextIsShown(stops: seq<Stop>)
    ensures Joined(PartsFor(stops), '.') == ShowAll(SegmentsFor(stops))
  {
    hide ShowAll;
    if stops == [] {
      assert ShowAll([]) == "" by { NothingShown(); }
    } else {
      assert PartsFor(stops)[1..] == PartsFor(stops[1..]);
      TextIsShown(stops[1..]);
      ShownStop(stops[0].name, stops[0].starred, SegmentsFor(stops[1..]));
    }
  }

  lemma NothingShown()
    ensures ShowAll([]) == ""
  {
  }

  lemma {:induction false} SegmentsForArePrintable(stops: seq<Stop>)
    requires forall i :: 0 <= i < |stops| ==> IsName(stops[i].name)
    ensures Printable(SegmentsFor(stops))
  {
    if stops != [] {
      SegmentsForArePrintable(stops[1..]);
    }
  }

  /** Split by the other masker's pattern, the same text gives the segments. */
  lemma {:induction false} SegmentsReadText(stops: seq<Stop>)
    requires forall i :: 0 <= i < |stops| ==> IsName(stops[i].name)
    ensures Segments(TextFor(stops)) == SegmentsFor(stops)
  {
    TextIsShown(stops);
    SegmentsForArePrintable(stops);
    SplitUndoesShow(SegmentsFor(stops));
  }

  // ----- The two maskers agree -----

  /** What the parts of a dotted path name, in segments: `*` alone is any item, a name is a key, and
      `[*]` after it any item of that. */
  function Expanded(parts: seq<string>): seq<Segment> {
    if parts == [] then [] else Expansion(parts[0]) + Expanded(parts[1..])
  }

  function Expansion(part: string): seq<Segment> {
    if part == "*" || part == "*[*]" then [Wild]
    else if EndsInStar(part) then [Key(part[..|part| - 3]), Wild]
    else [Key(part)]
  }

  lemma PartIsExpanded(part: string)
    ensures NameOf(part) == "*" <==> part == "*" || part == "*[*]"
  {
    if EndsInStar(part) && part[..|part| - 3] == "*" {
      assert part == part[..|part| - 3] + part[|part| - 3..];
    }
  }

  /** A dotted path, whatever its parts, masks exactly what its expansion names. */
  lemma {:induction false} PartsMaskLikeSegments(doc: Json, parts: seq<string>)
    ensures MaskParts(doc, parts) == Mask(doc, Expanded(parts), Text(VOLATILE_PLACEHOLDER))
    decreases |parts|, 0
  {
    if parts != [] {
      hide MaskParts, Mask, Expanded;
      var rest := parts[1..];
      if NameOf(parts[0]) == "*" {
        if doc.Array? {
          ItemsMaskLikeSegments(doc, rest);
        }
        StarMasks(doc, parts);
      } else {
        if doc.Object? && NameOf(parts[0]) in doc.members {
          var child := doc.members[NameOf(parts[0])];
          if child.Array? {
            ItemsMaskLikeSegments(child, rest);
          }
          PartsMaskLikeSegments(child, rest);
        }
        NameMasks(doc, parts);
      }
    }
  }

  /** The items of a list, each masked by the rest of the path. */
  function MaskedItems(list: Json, rest: seq<string>): Json
    requires list.Array?
  {
    Array(seq(|list.items|, i requires 0 <= i < |list.items| => MaskParts(list.items[i], rest)))
  }

  lemma StarMasks(doc: Json, parts: seq<string>)
    requires parts != [] && NameOf(parts[0]) == "*"
    requires doc.Array? ==> MaskedItems(doc, parts[1..]) == Mask(doc, [Wild] + Expanded(parts[1..]), Text(VOLATILE_PLACEHOLDER))
    ensures MaskParts(doc, parts) == Mask(doc, Expanded(parts), Text(VOLATILE_PLACEHOLDER))
  {
    hide NameOf;
    PartIsExpanded(parts[0]);
    assert Expanded(parts) == [Wild] + Expanded(parts[1..]);
  }

  lemma NameMasks(doc: Json, parts: seq<string>)
    requires parts != [] && NameOf(parts[0]) != "*"
    requires var name := NameOf(parts[0]);
             doc.Object? && name in doc.members ==>
               && MaskParts(doc.members[name], parts[1..]) == Mask(doc.members[name], Expanded(parts[1..]), Text(VOLATILE_PLACEHOLDER))
               && (doc.members[name].Array? ==>
                     MaskedItems(doc.members[name], parts[1..]) == Mask(doc.members[name], [Wild] + Expanded(parts[1..]), Text(VOLATILE_PLACEHOLDER)))
    ensures MaskParts(doc, parts) == Mask(doc, Expanded(parts), Text(VOLATILE_PLACEHOLDER))
  {
    hide Mask;
    var name, rest := NameOf(parts[0]), parts[1..];
    PartIsExpanded(parts[0]);
    ExpandedIsLong(rest);
    MaskOfKey(doc, name, if EndsInStar(parts[0]) then [Wild] + Expanded(rest) else Expanded(rest));
    MaskOfWild(doc, name, Expanded(rest));
    assert Expanded(parts) == [Key(name)] + (if EndsInStar(parts[0]) then [Wild] + Expanded(rest) else Expanded(rest));
    hide Expanded, NameOf, EndsInStar;
  }

  lemma MaskOfKey(doc: Json, name: string, rest: seq<Segment>)
    ensures Mask(doc, [Key(name)] + rest, Text(VOLATILE_PLACEHOLDER)) ==
            if !doc.Object? || name !in doc.members then doc
            else Object(doc.members[name := if rest == [] then PLACEHOLDER else Mask(doc.members[name], rest, Text(VOLATILE_PLACEHOLDER))])
  {
    assert ([Key(name)] + rest)[1..] == rest;
  }

  /** A wildcard leaves a member that is no list, and so its document. */
  lemma MaskOfWild(doc: Json, name: string, rest: seq<Segment>)
    ensures doc.Object? && name in doc.members && !doc.members[name].Array? ==>
              && Mask(doc.members[name], [Wild] + rest, Text(VOLATILE_PLACEHOLDER)) == doc.members[name]
              && Object(doc.members[name := doc.members[name]]) == doc
  {
    if doc.Object? && name in doc.members {
      assert doc.members[name := doc.members[name]] == doc.members;
    }
  }

  lemma ExpandedIsLong(parts: seq<string>)
    ensures Expanded(parts) == [] <==> parts == []
  {
  }

  lemma {:induction false} ItemsMaskLikeSegments(list: Json, rest: seq<string>)
    requires list.Array?
    ensures MaskedItems(list, rest) == Mask(list, [Wild] + Expanded(rest), Text(VOLATILE_PLACEHOLDER))
    decreases |rest|, 1
  {
    hide MaskParts;
    forall i | 0 <= i < |list.items|
      ensures MaskParts(list.items[i], rest) == Mask(list.items[i], Expanded(rest), Text(VOLATILE_PLACEHOLDER))
    {
      PartsMaskLikeSegments(list.items[i], rest);
    }
    assert ([Wild] + Expanded(rest))[1..] == Expanded(rest);
    var masked := Mask(list, [Wild] + Expanded(rest), Text(VOLATILE_PLACEHOLDER));
    assert MaskedItems(list, rest).items == masked.items;
  }

  /** The values listed are those at the places listed, in the same order. */
  predicate Lists(values: seq<Json>, doc: Json, places: seq<Place>) {
    |values| == |places| && forall i :: 0 <= i < |places| ==> At(doc, places[i]) == Some(values[i])
  }

  lemma ListsBelow(values: seq<Json>, doc: Json, step: Step, places: seq<Place>)
    requires Child(doc, step).Some? && Lists(values, Child(doc, step).value, places)
    ensures Lists(values, doc, Below(step, places))
  {
  }

  /** And its sink gets the old value of each replaced place, in order. */
  lemma {:induction false} SinkListsHits(doc: Json, parts: seq<string>)
    ensures Lists(Sink(doc, parts), doc, HitPlaces(doc, Expanded(parts)))
    decreases |parts|, 0
  {
    if parts != [] {
      hide Sink, HitPlaces, Expanded, Lists;
      var rest := parts[1..];
      if NameOf(parts[0]) == "*" {
        if doc.Array? {
          AllItemSinksListHits(doc, rest);
        }
        StarLists(doc, parts);
      } else {
        if doc.Object? && NameOf(parts[0]) in doc.members {
          var child := doc.members[NameOf(parts[0])];
          if child.Array? {
            AllItemSinksListHits(child, rest);
          }
          SinkListsHits(child, rest);
        }
        NameLists(doc, parts);
      }
    }
  }

  lemma StarLists(doc: Json, parts: seq<string>)
    requires parts != [] && NameOf(parts[0]) == "*"
    requires doc.Array? ==> Lists(ItemSinks(doc.items, parts[1..]), doc, ItemHits(doc.items, Expanded(parts[1..])))
    ensures Lists(Sink(doc, parts), doc, HitPlaces(doc, Expanded(parts)))
  {
    hide NameOf, ItemHits;
    PartIsExpanded(parts[0]);
    assert Expanded(parts) == [Wild] + Expanded(parts[1..]);
    assert Expanded(parts)[1..] == Expanded(parts[1..]);
  }

  lemma NameLists(doc: Json, parts: seq<string>)
    requires parts != [] && NameOf(parts[0]) != "*"
    requires var name := NameOf(parts[0]);
             doc.Object? && name in doc.members ==>
               && Lists(Sink(doc.members[name], parts[1..]), doc.members[name], HitPlaces(doc.members[name], Expanded(parts[1..])))
               && (doc.members[name].Array? ==>
                     Lists(ItemSinks(doc.members[name].items, parts[1..]), doc.members[name], ItemHits(doc.members[name].items, Expanded(parts[1..]))))
    ensures Lists(Sink(doc, parts), doc, HitPlaces(doc, Expanded(parts)))
  {
    hide HitPlaces, ItemHits;
    var name, rest := NameOf(parts[0]), parts[1..];
    var below := if EndsInStar(parts[0]) then [Wild] + Expanded(rest) else Expanded(rest);
    PartIsExpanded(parts[0]);
    ExpandedIsLong(rest);
    HitsOfKey(doc, name, below);
    assert Expanded(parts) == [Key(name)] + below;
    hide Expanded, NameOf, EndsInStar, Lists;
    if doc.Object? && name in doc.members {
      var child := doc.members[name];
      HitsOfWild(child, Expanded(rest));
      if child.Array? {
        ListsBelow(ItemSinks(child.items, rest), doc, Field(name), ItemHits(child.items, Expanded(rest)));
      }
      ListsBelow(Sink(child, rest), doc, Field(name), HitPlaces(child, Expanded(rest)));
      OneValueListed(doc, name);
    }
    NothingListed(doc);
  }

  lemma HitsOfKey(doc: Json, name: string, rest: seq<Segment>)
    ensures HitPlaces(doc, [Key(name)] + rest) ==
            if !doc.Object? || name !in doc.members then []
            else if rest == [] then [[Field(name)]] else Below(Field(name), HitPlaces(doc.members[name], rest))
  {
    assert ([Key(name)] + rest)[1..] == rest;
  }

  lemma HitsOfWild(doc: Json, rest: seq<Segment>)
    ensures HitPlaces(doc, [Wild] + rest) == if doc.Array? then ItemHits(doc.items, rest) else []
  {
    assert ([Wild] + rest)[1..] == rest;
  }

  lemma OneValueListed(doc: Json, name: string)
    requires doc.Object? && name in doc.members
    ensures Lists([doc.members[name]], doc, [[Field(name)]])
  {
    assert At(doc, [Field(name)]) == Child(doc, Field(name)) by { OneSegmentHit(doc, [Key(name)], Field(name)); }
  }

  lemma NothingListed(doc: Json)
    ensures Lists([], doc, [])
    ensures forall step :: Below(step, []) == []
  {
  }

  lemma {:induction false} AllItemSinksListHits(list: Json, parts: seq<string>)
    requires list.Array?
    ensures Lists(ItemSinks(list.items, parts), list, ItemHits(list.items, Expanded(parts)))
    decreases |parts|, 2
  {
    hide Lists, ItemSinks, ItemHits;
    ItemSinksListHits(list, parts, |list.items|);
    assert list.items[..|list.items|] == list.items;
  }

  function ItemSinks(items: seq<Json>, parts: seq<string>): seq<Json> {
    Flatten(seq(|items|, i requires 0 <= i < |items| => Sink(items[i], parts)))
  }

  lemma {:induction false} ItemSinksListHits(doc: Json, parts: seq<string>, n: nat)
    requires doc.Array? && n <= |doc.items|
    ensures Lists(ItemSinks(doc.items[..n], parts), doc, ItemHits(doc.items[..n], Expanded(parts)))
    decreases |parts|, 1, n
  {
    if n > 0 {
      var items := doc.items[..n];
      var sinks := seq(n, i requires 0 <= i < n => Sink(items[i], parts));
      assert items[..n - 1] == doc.items[..n - 1];
      assert sinks[..n - 1] == seq(n - 1, i requires 0 <= i < n - 1 => Sink(doc.items[..n - 1][i], parts));
      ItemSinksListHits(doc, parts, n - 1);
      SinkListsHits(doc.items[n - 1], parts);
      ListsBelow(Sink(doc.items[n - 1], parts), doc, Item(n - 1), HitPlaces(doc.items[n - 1], Expanded(parts)));
    }
  }

  lemma {:induction false} ExpandedStops(stops: seq<Stop>)
    requires Common(stops)
    ensures Expanded(PartsFor(stops)) == SegmentsFor(stops)
  {
    if stops != [] {
      PartIsPlain(stops[0]);
      PartIsExpanded(PartOf(stops[0]));
      assert PartsFor(stops)[1..] == PartsFor(stops[1..]);
      ExpandedStops(stops[1..]);
    }
  }

  /** On every path both maskers can read they produce the same document, and the sink receives
      the old value of each replaced place once: it grows by the number of replaced places. */
  lemma TwoMaskersAgree(doc: Json, stops: seq<Stop>)
    requires Common(stops)
    ensures var text := TextFor(stops);
            var replaced := HitPlaces(doc, Segments(text));
            && MaskParts(doc, Parts(text)) == Mask(doc, Segments(text), Text(VOLATILE_PLACEHOLDER))
            && DistinctPlaces(replaced)
            && (forall p :: p in replaced <==> Hit(doc, Segments(text), p))
            && Lists(Sink(doc, Parts(text)), doc, replaced)
  {
    PartsReadText(stops);
    SegmentsReadText(stops);
    ExpandedStops(stops);
    PartsMaskLikeSegments(doc, PartsFor(stops));
    SinkListsHits(doc, PartsFor(stops));
    HitPlacesAreTheHits(doc, SegmentsFor(stops), []);
    forall p
      ensures p in HitPlaces(doc, SegmentsFor(stops)) <==> Hit(doc, SegmentsFor(stops), p)
    {
      HitPlacesAreTheHits(doc, SegmentsFor(stops), p);
    }
  }

  // ----- Masking by value -----

  predicate IsListed(doc: Json, values: set<string>) {
    doc.Leaf? && doc.atom.Text? && doc.atom.text in values
  }

  /** `_mask_by_value`: every listed text below the root is replaced. */
  function MaskValues(doc: Json, values: set<string>): Json {
    match doc
    case Leaf(_) => doc
    case Object(members) =>
      Object(map name | name in members :: if IsListed(members[name], values) then PLACEHOLDER else MaskValues(members[name], values))
    case Array(items) =>
      Array(seq(|items|, i requires 0 <= i < |items| => if IsListed(items[i], values) then PLACEHOLDER else MaskValues(items[i], values)))
  }

  lemma MaskValuesChild(doc: Json, values: set<string>, step: Step)
    ensures var child := Child(doc, step);
            && NodeOf(MaskValues(doc, values)) == NodeOf(doc)
            && Child(MaskValues(doc, values), step) ==
               if child.None? then None
               else if IsListed(child.value, values) then Some(PLACEHOLDER) else Some(MaskValues(child.value, values))
  {
  }

  /** Exactly the listed texts below the root change, each to the placeholder; a root that is
      itself a listed text does not. */
  lemma {:induction false} MaskValuesSemantics(doc: Json, values: set<string>, place: Place)
    ensures NodeAt(MaskValues(doc, values), place) ==
            if place != [] && At(doc, place).Some? && IsListed(At(doc, place).value, values) then Some(NodeOf(PLACEHOLDER))
            else NodeAt(doc, place)
    decreases |place|
  {
    hide MaskValues;
    MaskValuesChild(doc, values, if place == [] then Item(0) else place[0]);
    if place != [] {
      var child := Child(doc, place[0]);
      if child.Some? {
        assert At(doc, place) == At(child.value, place[1..]);
        if IsListed(child.value, values) {
          LeafHasNothingBelow(child.value.atom, place[1..]);
          LeafHasNothingBelow(Text(VOLATILE_PLACEHOLDER), place[1..]);
        } else {
          MaskValuesSemantics(child.value, values, place[1..]);
        }
      }
    }
  }
}
