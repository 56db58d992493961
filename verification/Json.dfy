/** JSON documents as values, the places inside them, and masking by a segmented path
    (`generate_corpus.py`, `_mask_at`, `_covers`). */
module Json {
  import opened Wrappers
  import opened Identifiers

  datatype Atom = Text(text: string) | Number(literal: string) | Boolean(value: bool) | Null

  datatype Json = Leaf(atom: Atom) | Object(members: map<string, Json>) | Array(items: seq<Json>)

  /** A nonempty numeral as it is written in a path, leading zeros and all. */
  type Numeral = s: string | s != [] && forall i :: 0 <= i < |s| ==> IsDigit(s[i]) witness "0"

  /** A path segment: `.name`, `[3]` or `[*]`. */
  datatype Segment = Key(name: string) | Index(digits: Numeral) | Wild

  // ----- Places in a document -----

  datatype Step = Field(name: string) | Item(index: nat)

  type Place = seq<Step>

  function Child(doc: Json, step: Step): Option<Json> {
    match step
    case Field(name) => if doc.Object? && name in doc.members then Some(doc.members[name]) else None
    case Item(i) => if doc.Array? && i < |doc.items| then Some(doc.items[i]) else None
  }

  function At(doc: Json, place: Place): Option<Json>
    decreases |place|
  {
    if place == [] then Some(doc)
    else
      var child := Child(doc, place[0]);
      if child.None? then None else At(child.value, place[1..])
  }

  /** What a document is at one place, apart from its children. */
  datatype Node = LeafNode(atom: Atom) | ObjectNode(names: set<string>) | ArrayNode(length: nat)

  function NodeOf(doc: Json): Node {
    match doc
    case Leaf(atom) => LeafNode(atom)
    case Object(members) => ObjectNode(members.Keys)
    case Array(items) => ArrayNode(|items|)
  }

  function NodeAt(doc: Json, place: Place): Option<Node> {
    var found := At(doc, place);
    if found.None? then None else Some(NodeOf(found.value))
  }

  /** Documents that look alike at every place are the same document. */
  lemma {:induction false} NodesDetermineDocument(a: Json, b: Json)
    requires forall place :: NodeAt(a, place) == NodeAt(b, place)
    ensures a == b
    decreases a
  {
    assert NodeAt(a, []) == NodeAt(b, []);
    match a
    case Leaf(atom) =>
    case Object(members) =>
      forall name | name in members
        ensures members[name] == b.members[name]
      {
        ChildLooksAlike(a, b, Field(name));
        NodesDetermineDocument(members[name], b.members[name]);
      }
      assert members == b.members;
    case Array(items) =>
      forall i | 0 <= i < |items|
        ensures items[i] == b.items[i]
      {
        ChildLooksAlike(a, b, Item(i));
        NodesDetermineDocument(items[i], b.items[i]);
      }
      assert items == b.items;
  }

  lemma ChildLooksAlike(a: Json, b: Json, step: Step)
    requires forall place :: NodeAt(a, place) == NodeAt(b, place)
    requires Child(a, step).Some? && Child(b, step).Some?
    ensures forall place :: NodeAt(Child(a, step).value, place) == NodeAt(Child(b, step).value, place)
  {
    forall place
      ensures NodeAt(Child(a, step).value, place) == NodeAt(Child(b, step).value, place)
    {
      assert ([step] + place)[1..] == place;
      assert NodeAt(a, [step] + place) == NodeAt(b, [step] + place);
    }
  }

  // ----- Which places a path names -----

  predicate Names(segment: Segment, step: Step) {
    match segment
    case Key(name) => step == Field(name)
    case Index(digits) => step == Item(DigitsValue(digits))
    case Wild => step.Item?
  }

  predicate NamesAll(segments: seq<Segment>, place: Place) {
    |segments| == |place| && forall i :: 0 <= i < |place| ==> Names(segments[i], place[i])
  }

  /** Masking replaces only below a final key. */
  predicate EndsInKey(segments: seq<Segment>) {
    segments != [] && segments[|segments| - 1].Key?
  }

  /** The place exists in the document and the path names it. */
  predicate Hit(doc: Json, segments: seq<Segment>, place: Place) {
    EndsInKey(segments) && NamesAll(segments, place) && At(doc, place).Some?
  }

  // ----- Masking -----

  /** The document with the value at every named place replaced. */
  function Mask(doc: Json, segments: seq<Segment>, replacement: Atom): Json
    decreases |segments|
  {
    if segments == [] then doc
    else
      var rest := segments[1..];
      match segments[0]
      case Wild =>
        if !doc.Array? then doc
        else Array(seq(|doc.items|, i requires 0 <= i < |doc.items| => Mask(doc.items[i], rest, replacement)))
      case Index(digits) =>
        var position := DigitsValue(digits);
        if !doc.Array? || position >= |doc.items| then doc
        else Array(doc.items[position := Mask(doc.items[position], rest, replacement)])
      case Key(name) =>
        if !doc.Object? || name !in doc.members then doc
        else if rest == [] then Object(doc.members[name := Leaf(replacement)])
        else Object(doc.members[name := Mask(doc.members[name], rest, replacement)])
  }

  /** Whether `_mask_at` reports that it replaced something. */
  predicate Found(doc: Json, segments: seq<Segment>)
    decreases |segments|
  {
    segments != [] &&
    match segments[0]
    case Wild => doc.Array? && exists i :: 0 <= i < |doc.items| && Found(doc.items[i], segments[1..])
    case Index(digits) =>
      doc.Array? && DigitsValue(digits) < |doc.items| && Found(doc.items[DigitsValue(digits)], segments[1..])
    case Key(name) =>
      doc.Object? && name in doc.members && (|segments| == 1 || Found(doc.members[name], segments[1..]))
  }

  /** Masking below a child only touches that child: one step of the frame. */
  lemma MaskChild(doc: Json, segments: seq<Segment>, replacement: Atom, step: Step)
    requires segments != []
    ensures var masked, child := Mask(doc, segments, replacement), Child(doc, step);
            && NodeOf(masked) == NodeOf(doc)
            && Child(masked, step) ==
               if child.None? || !Names(segments[0], step) then child
               else if |segments| == 1 && segments[0].Key? then Some(Leaf(replacement))
               else Some(Mask(child.value, segments[1..], replacement))
  {
  }

  lemma HitBelow(doc: Json, segments: seq<Segment>, place: Place)
    requires |segments| > 1 && place != []
    ensures Hit(doc, segments, place) <==>
            Names(segments[0], place[0]) && Child(doc, place[0]).Some? && Hit(Child(doc, place[0]).value, segments[1..], place[1..])
  {
  }

  lemma OneSegmentHit(doc: Json, segments: seq<Segment>, step: Step)
    requires |segments| == 1
    ensures At(doc, [step]) == Child(doc, step)
    ensures Hit(doc, segments, [step]) <==> segments[0].Key? && Names(segments[0], step) && Child(doc, step).Some?
  {
  }

  /** The frame law, as an equation for every place of the masked document: a named place holds
      the replacement, nothing remains below it, and every other place is as it was. */
  lemma {:induction false} MaskSemantics(doc: Json, segments: seq<Segment>, replacement: Atom, place: Place)
    ensures NodeAt(Mask(doc, segments, replacement), place) ==
            if |segments| <= |place| && Hit(doc, segments, place[..|segments|])
            then (if |segments| == |place| then Some(LeafNode(replacement)) else None)
            else NodeAt(doc, place)
    decreases |segments|
  {
    if segments != [] && place == [] {
      MaskChild(doc, segments, replacement, Item(0));
    } else if segments != [] {
      var masked, child := Mask(doc, segments, replacement), Child(doc, place[0]);
      MaskChild(doc, segments, replacement, place[0]);
      assert NodeAt(doc, place) == if child.None? then None else NodeAt(child.value, place[1..]);
      assert NodeAt(masked, place) == if Child(masked, place[0]).None? then None else NodeAt(Child(masked, place[0]).value, place[1..]);
      if |segments| == 1 {
        OneSegmentHit(doc, segments, place[0]);
        assert place[..1] == [place[0]];
        assert segments[1..] == [];
        if segments[0].Key? && Names(segments[0], place[0]) && child.Some? {
          LeafHasNothingBelow(replacement, place[1..]);
        }
      } else {
        if child.Some? && Names(segments[0], place[0]) {
          MaskSemantics(child.value, segments[1..], replacement, place[1..]);
        }
        if |segments| <= |place| {
          HitBelow(doc, segments, place[..|segments|]);
          assert place[..|segments|][1..] == place[1..][..|segments| - 1];
        }
      }
    }
  }

  lemma LeafHasNothingBelow(atom: Atom, place: Place)
    ensures NodeAt(Leaf(atom), place) == if place == [] then Some(LeafNode(atom)) else None
  {
  }
}
