/** The capture's maskers as they run on nested containers, recording what they replace. */
module HttpMaskingInPlace {
  import opened Wrappers
  import opened Json
  import opened JsonPaths
  import opened Declarations
  import opened HttpMasking
  import opened DocumentHeap

  /** The list the maskers append the text of replaced values to. */
  class Recorder {
    var texts: seq<string>

    constructor ()
      ensures texts == []
    {
      texts := [];
    }
  }

  /** The texts of a list of values, whatever `str` makes of a value. */
  function Rendered(values: seq<Json>, render: Json -> string): (r: seq<string>)
    ensures |r| == |values|
  {
    seq(|values|, i requires 0 <= i < |values| => render(values[i]))
  }

  lemma RenderedConcat(a: seq<Json>, b: seq<Json>, render: Json -> string)
    ensures Rendered(a + b, render) == Rendered(a, render) + Rendered(b, render)
  {
  }

  // ----- Masking by a dotted path -----

  /** What the masker makes of one entry: of each of its items after `[*]`, else of itself. */
  function EntryMask(entry: Json, starred: bool, rest: seq<string>): Json {
    if !starred then MaskParts(entry, rest)
    else if entry.Array? then Array(seq(|entry.items|, i requires 0 <= i < |entry.items| => MaskParts(entry.items[i], rest)))
    else entry
  }

  function EntrySink(entry: Json, starred: bool, rest: seq<string>): seq<Json> {
    if !starred then Sink(entry, rest)
    else if entry.Array? then ItemSinks(entry.items, rest)
    else []
  }

  /** `_mask_segments`. */
  method MaskSegments(document: Slot, parts: seq<string>, render: Json -> string, sink: Recorder)
    requires ValidSlot(document)
    modifies Footprint(document), sink
    ensures ValidSlot(document)
    ensures DocOf(document) == MaskParts(old(DocOf(document)), parts)
    ensures sink.texts == old(sink.texts) + Rendered(Sink(old(DocOf(document)), parts), render)
    decreases |parts|, 0
  {
    if parts == [] {
      return;
    }
    var name, rest := NameOf(parts[0]), parts[1..];
    if name == "*" {
      if document.Ref? && document.node.shape.Items? {
        MaskEveryItem(document.node, rest, render, sink);
      }
      return;
    }
    if document.Scalar? || !document.node.shape.Members? || name !in document.node.shape.members {
      return;
    }
    if !EndsInStar(parts[0]) && rest == [] {
      EntryHolds(document.node, Field(name));
      var replaced := Snapshot(document.node.shape.members[name]);
      sink.texts := sink.texts + [render(replaced)];
      Overwrite(document.node, Field(name), Text(VOLATILE_PLACEHOLDER));
      return;
    }
    MaskEntry(document.node, Field(name), EndsInStar(parts[0]), rest, render, sink);
  }

  /** The recursive call on one entry, or on each of its items. */
  method MaskEntry(node: Container, step: Step, starred: bool, rest: seq<string>, render: Json -> string, sink: Recorder)
    requires node.Valid() && SlotAt(node.shape, step).Some?
    modifies node.Repr, sink
    ensures node.Valid() && node.shape == old(node.shape)
    ensures Child(old(node.Doc), step).Some?
    ensures node.Doc == With(old(node.Doc), step, EntryMask(Child(old(node.Doc), step).value, starred, rest))
    ensures sink.texts == old(sink.texts) + Rendered(EntrySink(Child(old(node.Doc), step).value, starred, rest), render)
    decreases |rest|, if starred then 3 else 1
  {
    hide MaskParts, Sink;
    var slot := SlotAt(node.shape, step).value;
    EntryHolds(node, step);
    ghost var before := node.Doc;
    if !starred {
      MaskSegments(slot, rest, render, sink);
    } else if slot.Ref? && slot.node.shape.Items? {
      MaskEveryItem(slot.node, rest, render, sink);
    }
    ghost var doc := With(before, step, DocOf(slot));
    forall s | SlotAt(node.shape, s).Some?
      ensures node.HoldsAt(SlotAt(node.shape, s).value, Child(doc, s))
    {
      var other := SlotAt(node.shape, s).value;
      assert old(node.HoldsAt(other, Child(before, s)));
      if s != step {
        assert Footprint(other) !! Footprint(slot);
      }
    }
    SetDoc(node, doc);
  }

  method MaskEveryItem(list: Container, rest: seq<string>, render: Json -> string, sink: Recorder)
    requires list.Valid() && list.shape.Items?
    modifies list.Repr, sink
    ensures list.Valid()
    ensures list.Doc == EntryMask(old(list.Doc), true, rest)
    ensures sink.texts == old(sink.texts) + Rendered(EntrySink(old(list.Doc), true, rest), render)
    decreases |rest|, 2
  {
    hide MaskParts, Sink;
    ghost var before := list.Doc.items;
    for i := 0 to |list.shape.items|
      invariant list.Valid() && list.shape == old(list.shape)
      invariant forall k :: 0 <= k < i ==> list.Doc.items[k] == MaskParts(before[k], rest)
      invariant forall k :: i <= k < |before| ==> list.Doc.items[k] == before[k]
      invariant sink.texts == old(sink.texts) + Rendered(ItemSinks(before[..i], rest), render)
    {
      MaskEntry(list, Item(i), false, rest, render, sink);
      OneMoreSink(before, rest, i);
      RenderedConcat(ItemSinks(before[..i], rest), Sink(before[i], rest), render);
    }
    assert before[..|before|] == before;
  }

  lemma OneMoreSink(items: seq<Json>, rest: seq<string>, i: nat)
    requires i < |items|
    ensures ItemSinks(items[..i + 1], rest) == ItemSinks(items[..i], rest) + Sink(items[i], rest)
  {
    var sinks := seq(i + 1, k requires 0 <= k <= i => Sink(items[..i + 1][k], rest));
    assert sinks == seq(|items[..i + 1]|, k requires 0 <= k < |items[..i + 1]| => Sink(items[..i + 1][k], rest));
    assert sinks[..i] == seq(|items[..i]|, k requires 0 <= k < |items[..i]| => Sink(items[..i][k], rest));
  }

  /** `_mask_by_path`. */
  method MaskByPath(body: Slot, path: string, render: Json -> string, sink: Recorder)
    requires ValidSlot(body)
    modifies Footprint(body), sink
    ensures ValidSlot(body)
    ensures DocOf(body) == MaskParts(old(DocOf(body)), Parts(path))
    ensures sink.texts == old(sink.texts) + Rendered(Sink(old(DocOf(body)), Parts(path)), render)
  {
    MaskSegments(body, Parts(path), render, sink);
  }

  // ----- Masking by value -----

  function MaskedValue(child: Json, values: set<string>): Json {
    if IsListed(child, values) then PLACEHOLDER else MaskValues(child, values)
  }

  /** The texts listed are those at the places listed, in the same order. */
  predicate TextsAt(texts: seq<string>, doc: Json, places: seq<Place>) {
    |texts| == |places| && forall i :: 0 <= i < |places| ==> At(doc, places[i]) == Some(Leaf(Text(texts[i])))
  }

  lemma TextsBelow(texts: seq<string>, doc: Json, step: Step, places: seq<Place>)
    requires Child(doc, step).Some? && TextsAt(texts, Child(doc, step).value, places)
    ensures TextsAt(texts, doc, Below(step, places))
  {
    forall i | 0 <= i < |places|
      ensures At(doc, Below(step, places)[i]) == Some(Leaf(Text(texts[i])))
    {
      assert ([step] + places[i])[1..] == places[i];
    }
  }

  ghost predicate AllListed(doc: Json, values: set<string>, places: seq<Place>) {
    DistinctPlaces(places) && forall p: Place :: p in places <==> IsAt(doc, Listed(values), p)
  }

  function Listed(values: set<string>): Json -> bool {
    doc => IsListed(doc, values)
  }

  /** `_mask_by_value`: every listed text below the root is replaced and recorded once, in
      whatever order the members of an object come. */
  method MaskByValue(document: Slot, values: set<string>, sink: Recorder) returns (ghost places: seq<Place>, ghost added: seq<string>)
    requires ValidSlot(document)
    modifies Footprint(document), sink
    ensures ValidSlot(document)
    ensures DocOf(document) == MaskValues(old(DocOf(document)), values)
    ensures sink.texts == old(sink.texts) + added && TextsAt(added, old(DocOf(document)), places)
    ensures DistinctPlaces(places)
    ensures forall p: Place :: p in places <==> p != [] && IsAt(old(DocOf(document)), Listed(values), p)
    decreases DocOf(document), 1
  {
    places, added := [], [];
    if document.Scalar? {
      return;
    }
    match document.node.shape {
      case Members(_) => places, added := MaskMembersByValue(document.node, values, sink);
      case Items(_) => places, added := MaskItemsByValue(document.node, values, sink);
    }
  }

  /** Every child is masked, none is added or dropped. */
  ghost predicate ChildrenMasked(before: Json, after: Json, values: set<string>) {
    && NodeOf(after) == NodeOf(before)
    && forall step :: Child(before, step).Some? ==> Child(after, step) == Some(MaskedValue(Child(before, step).value, values))
  }

  lemma MaskedChildrenMaskTheDocument(before: Json, after: Json, values: set<string>)
    requires !before.Leaf? && ChildrenMasked(before, after, values)
    ensures after == MaskValues(before, values)
  {
    match before
    case Object(members) =>
      forall name | name in members
        ensures after.members[name] == MaskedValue(members[name], values)
      {
        assert Child(before, Field(name)).Some?;
      }
      assert after.members == MaskValues(before, values).members;
    case Array(items) =>
      forall i | 0 <= i < |items|
        ensures after.items[i] == MaskedValue(items[i], values)
      {
        assert Child(before, Item(i)).Some?;
      }
      assert after.items == MaskValues(before, values).items;
  }

  lemma AllStepsVisited(doc: Json, values: set<string>, steps: set<Step>, places: seq<Place>)
    requires PlacesUnder(doc, Listed(values), steps, places)
    requires forall step :: Child(doc, step).Some? ==> step in steps
    ensures forall p: Place :: p in places <==> p != [] && IsAt(doc, Listed(values), p)
  {
  }

  lemma VisitedOneMore(doc: Json, values: set<string>, steps: set<Step>, places: seq<Place>, added: seq<string>,
                       step: Step, below: seq<Place>, more: seq<string>)
    requires PlacesUnder(doc, Listed(values), steps, places) && TextsAt(added, doc, places)
    requires step !in steps && Child(doc, step).Some?
    requires AllListed(Child(doc, step).value, values, below) && TextsAt(more, Child(doc, step).value, below)
    ensures PlacesUnder(doc, Listed(values), steps + {step}, places + Below(step, below))
    ensures TextsAt(added + more, doc, places + Below(step, below))
  {
    hide At, IsAt, Listed, IsListed, Child, Below;
    MorePlaces(doc, Listed(values), steps, places, step, below);
    TextsBelow(more, doc, step, below);
  }

  method MaskMembersByValue(node: Container, values: set<string>, sink: Recorder) returns (ghost places: seq<Place>, ghost added: seq<string>)
    requires node.Valid() && node.shape.Members?
    modifies node.Repr, sink
    ensures node.Valid() && node.Doc == MaskValues(old(node.Doc), values)
    ensures sink.texts == old(sink.texts) + added && TextsAt(added, old(node.Doc), places)
    ensures DistinctPlaces(places)
    ensures forall p: Place :: p in places <==> p != [] && IsAt(old(node.Doc), Listed(values), p)
    decreases node.Doc, 0
  {
    hide MaskValues, MaskedValue, At, IsAt, Listed, IsListed;
    places, added := [], [];
    ghost var before, done: set<Step> := node.Doc, {};
    var remaining := node.shape.members.Keys;
    while remaining != {}
      invariant node.Valid() && node.shape.Members? && NodeOf(node.Doc) == NodeOf(before)
      invariant remaining <= before.members.Keys
      invariant done == set name | name in before.members.Keys - remaining :: Field(name)
      invariant forall name :: name in remaining ==> node.Doc.members[name] == before.members[name]
      invariant forall name :: name in before.members.Keys - remaining ==> node.Doc.members[name] == MaskedValue(before.members[name], values)
      invariant PlacesUnder(before, Listed(values), done, places) && TextsAt(added, before, places)
      invariant sink.texts == old(sink.texts) + added
    {
      var name :| name in remaining;
      ghost var below, more := MaskEntryByValue(node, Field(name), values, sink);
      VisitedOneMore(before, values, done, places, added, Field(name), below, more);
      places, added := places + Below(Field(name), below), added + more;
      remaining, done := remaining - {name}, done + {Field(name)};
    }
    assert ChildrenMasked(before, node.Doc, values);
    MaskedChildrenMaskTheDocument(before, node.Doc, values);
    AllStepsVisited(before, values, done, places);
  }

  method MaskItemsByValue(node: Container, values: set<string>, sink: Recorder) returns (ghost places: seq<Place>, ghost added: seq<string>)
    requires node.Valid() && node.shape.Items?
    modifies node.Repr, sink
    ensures node.Valid() && node.Doc == MaskValues(old(node.Doc), values)
    ensures sink.texts == old(sink.texts) + added && TextsAt(added, old(node.Doc), places)
    ensures DistinctPlaces(places)
    ensures forall p: Place :: p in places <==> p != [] && IsAt(old(node.Doc), Listed(values), p)
    decreases node.Doc, 0
  {
    hide MaskValues, MaskedValue, At, IsAt, Listed, IsListed;
    places, added := [], [];
    ghost var before, done: set<Step> := node.Doc, {};
    for i := 0 to |node.shape.items|
      invariant node.Valid() && node.shape.Items? && NodeOf(node.Doc) == NodeOf(before)
      invariant done == set k | 0 <= k < i :: Item(k)
      invariant forall k :: i <= k < |before.items| ==> node.Doc.items[k] == before.items[k]
      invariant forall k :: 0 <= k < i ==> node.Doc.items[k] == MaskedValue(before.items[k], values)
      invariant PlacesUnder(before, Listed(values), done, places) && TextsAt(added, before, places)
      invariant sink.texts == old(sink.texts) + added
    {
      ghost var below, more := MaskEntryByValue(node, Item(i), values, sink);
      VisitedOneMore(before, values, done, places, added, Item(i), below, more);
      places, added := places + Below(Item(i), below), added + more;
      done := done + {Item(i)};
    }
    assert ChildrenMasked(before, node.Doc, values);
    MaskedChildrenMaskTheDocument(before, node.Doc, values);
    AllStepsVisited(before, values, done, places);
  }

  method MaskEntryByValue(node: Container, step: Step, values: set<string>, sink: Recorder)
      returns (ghost places: seq<Place>, ghost added: seq<string>)
    requires node.Valid() && SlotAt(node.shape, step).Some? && Child(node.Doc, step).Some?
    modifies node.Repr, sink
    ensures node.Valid() && node.shape.Members? == old(node.shape.Members?)
    ensures node.Doc == With(old(node.Doc), step, MaskedValue(Child(old(node.Doc), step).value, values))
    ensures AllListed(Child(old(node.Doc), step).value, values, places)
    ensures sink.texts == old(sink.texts) + added && TextsAt(added, Child(old(node.Doc), step).value, places)
    decreases Child(node.Doc, step).value, 2
  {
    EntryHolds(node, step);
    var slot := SlotAt(node.shape, step).value;
    ghost var before, child := node.Doc, Child(node.Doc, step).value;
    if slot.Scalar? && slot.atom.Text? && slot.atom.text in values {
      sink.texts := sink.texts + [slot.atom.text];
      Overwrite(node, step, Text(VOLATILE_PLACEHOLDER));
      places, added := [[]], [slot.atom.text];
    } else {
      places, added := MaskByValue(slot, values, sink);
      ghost var doc := With(before, step, DocOf(slot));
      forall s | SlotAt(node.shape, s).Some?
        ensures node.HoldsAt(SlotAt(node.shape, s).value, Child(doc, s))
      {
        var other := SlotAt(node.shape, s).value;
        assert old(node.HoldsAt(other, Child(before, s)));
        if s != step {
          assert Footprint(other) !! Footprint(slot);
        }
      }
      SetDoc(node, doc);
    }
  }
}
