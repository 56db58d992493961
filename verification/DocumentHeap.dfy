/** The maskers as they run: documents are nested containers on the heap, rewritten in place.
    Each method leaves the document that the functions on values prescribe. */
module DocumentHeap {
  import opened Wrappers
  import opened Identifiers
  import opened Json
  import opened MaskLaws
  import opened JsonPaths

  /** What a dictionary entry or a list item holds. */
  datatype Slot = Scalar(atom: Atom) | Ref(node: Container)

  datatype Shape = Members(members: map<string, Slot>) | Items(items: seq<Slot>)

  function SlotAt(shape: Shape, step: Step): Option<Slot> {
    match step
    case Field(name) => if shape.Members? && name in shape.members then Some(shape.members[name]) else None
    case Item(i) => if shape.Items? && i < |shape.items| then Some(shape.items[i]) else None
  }

  function Put(shape: Shape, step: Step, slot: Slot): (r: Shape)
    requires SlotAt(shape, step).Some?
    ensures forall s :: SlotAt(r, s) == if s == step then Some(slot) else SlotAt(shape, s)
    ensures r.Members? == shape.Members?
    ensures r.Members? ==> r.members.Keys == shape.members.Keys
    ensures r.Items? ==> |r.items| == |shape.items|
  {
    match step
    case Field(name) => Members(shape.members[name := slot])
    case Item(i) => Items(shape.items[i := slot])
  }

  ghost function Footprint(slot: Slot): set<Container> {
    if slot.Ref? then slot.node.Repr else {}
  }

  /** The document a slot stands for. */
  ghost function DocOf(slot: Slot): Json
    reads Footprint(slot), if slot.Ref? then {slot.node} else {}
  {
    if slot.Ref? then slot.node.Doc else Leaf(slot.atom)
  }

  ghost predicate ValidSlot(slot: Slot)
    reads Footprint(slot), if slot.Ref? then {slot.node} else {}
  {
    slot.Ref? ==> slot.node.Valid()
  }

  /** A dictionary or a list. Nothing below it is shared: two entries reach disjoint parts of
      the heap. */
  class Container {
    var shape: Shape
    ghost var Doc: Json
    ghost const Repr: set<Container>

    /** The container stands for `Doc`. */
    ghost predicate Valid()
      reads this, Repr
      ensures Valid() ==> this in Repr && Alike(shape, Doc)
      decreases Repr, 2
    {
      StandsFor(Doc)
    }

    ghost predicate StandsFor(doc: Json)
      reads this, Repr
      decreases Repr, 1
    {
      && this in Repr
      && Alike(shape, doc)
      && (forall step :: SlotAt(shape, step).Some? ==> HoldsAt(SlotAt(shape, step).value, Child(doc, step)))
      && Unshared(shape)
    }

    /** A dictionary or list over entries already built. */
    constructor (shape: Shape, ghost doc: Json, ghost below: set<Container>)
      requires Alike(shape, doc) && Unshared(shape)
      requires forall step :: SlotAt(shape, step).Some? ==>
                 var slot := SlotAt(shape, step).value;
                 ValidSlot(slot) && Footprint(slot) <= below && Child(doc, step) == Some(DocOf(slot))
      ensures Valid() && Doc == doc && this.shape == shape && Repr == {this} + below
    {
      this.shape := shape;
      Doc := doc;
      Repr := {this} + below;
      new;
      forall step | SlotAt(shape, step).Some?
        ensures HoldsAt(SlotAt(shape, step).value, Child(doc, step))
      {
        assert ValidSlot(SlotAt(shape, step).value);
      }
    }

    ghost predicate HoldsAt(slot: Slot, doc: Option<Json>)
      reads this, Repr
      decreases Repr, 0
    {
      match slot
      case Scalar(atom) => doc == Some(Leaf(atom))
      case Ref(node) =>
        node in Repr && node.Repr <= Repr && this in Repr && this !in node.Repr && node.Valid() && doc == Some(node.Doc)
    }
  }

  ghost predicate Unshared(shape: Shape) {
    forall s, t :: s != t && SlotAt(shape, s).Some? && SlotAt(shape, t).Some? ==>
      Footprint(SlotAt(shape, s).value) !! Footprint(SlotAt(shape, t).value)
  }

  ghost predicate Alike(shape: Shape, doc: Json) {
    match shape
    case Members(members) => doc.Object? && doc.members.Keys == members.Keys
    case Items(items) => doc.Array? && |doc.items| == |items|
  }

  /** A document with one child exchanged. */
  function With(doc: Json, step: Step, child: Json): (r: Json)
    requires Child(doc, step).Some?
    ensures NodeOf(r) == NodeOf(doc)
    ensures forall s :: Child(r, s) == if s == step then Some(child) else Child(doc, s)
  {
    match step
    case Field(name) =>
      var r := Object(doc.members[name := child]);
      assert r.members.Keys == doc.members.Keys;
      r
    case Item(i) => Array(doc.items[i := child])
  }

  /** What validity says of one entry. */
  lemma EntryHolds(node: Container, step: Step)
    requires node.Valid() && SlotAt(node.shape, step).Some?
    ensures var slot := SlotAt(node.shape, step).value;
            && ValidSlot(slot) && Child(node.Doc, step) == Some(DocOf(slot))
            && Footprint(slot) <= node.Repr && node !in Footprint(slot)
            && DocOf(slot) < node.Doc
  {
    assert node.HoldsAt(SlotAt(node.shape, step).value, Child(node.Doc, step));
  }

  /** Replacing one entry by a scalar keeps a container valid. */
  method Overwrite(node: Container, step: Step, replacement: Atom)
    requires node.Valid() && SlotAt(node.shape, step).Some?
    modifies node
    ensures Child(old(node.Doc), step).Some? && node.shape == Put(old(node.shape), step, Scalar(replacement))
    ensures node.Valid() && node.Doc == With(old(node.Doc), step, Leaf(replacement))
  {
    ghost var before := node.shape;
    EntryHolds(node, step);
    ghost var doc := With(node.Doc, step, Leaf(replacement));
    node.shape := Put(node.shape, step, Scalar(replacement));
    node.Doc := doc;
    forall s | SlotAt(node.shape, s).Some?
      ensures node.HoldsAt(SlotAt(node.shape, s).value, Child(doc, s))
    {
      if s != step {
        assert old(node.HoldsAt(SlotAt(before, s).value, Child(node.Doc, s)));
      }
    }
    assert Unshared(node.shape);
  }

  /** The ghost field follows a change below the container. */
  ghost method SetDoc(node: Container, doc: Json)
    requires node.StandsFor(doc)
    modifies node`Doc
    ensures node.Valid() && node.Doc == doc
  {
    node.Doc := doc;
    forall step | SlotAt(node.shape, step).Some?
      ensures node.HoldsAt(SlotAt(node.shape, step).value, Child(doc, step))
    {
      assert old(node.HoldsAt(SlotAt(node.shape, step).value, Child(doc, step)));
    }
  }

  /** A document built as nested containers. */
  method Load(doc: Json) returns (slot: Slot)
    ensures ValidSlot(slot) && DocOf(slot) == doc && fresh(Footprint(slot))
    decreases doc
  {
    ghost var below: set<Container> := {};
    match doc
    case Leaf(atom) => return Scalar(atom);
    case Object(members) =>
      var remaining, built: map<string, Slot> := members.Keys, map[];
      while remaining != {}
        invariant remaining <= members.Keys && built.Keys == members.Keys - remaining && fresh(below)
        invariant forall name :: name in built ==> ValidSlot(built[name]) && DocOf(built[name]) == members[name] && Footprint(built[name]) <= below
        invariant forall a, b :: a in built && b in built && a != b ==> Footprint(built[a]) !! Footprint(built[b])
      {
        var name :| name in remaining;
        var value := Load(members[name]);
        built, remaining, below := built[name := value], remaining - {name}, below + Footprint(value);
      }
      var node := new Container(Members(built), doc, below);
      return Ref(node);
    case Array(items) =>
      var built: seq<Slot> := [];
      for i := 0 to |items|
        invariant |built| == i && fresh(below)
        invariant forall k :: 0 <= k < i ==> ValidSlot(built[k]) && DocOf(built[k]) == items[k] && Footprint(built[k]) <= below
        invariant forall a, b :: 0 <= a < i && 0 <= b < i && a != b ==> Footprint(built[a]) !! Footprint(built[b])
      {
        var value := Load(items[i]);
        built, below := built + [value], below + Footprint(value);
      }
      var node := new Container(Items(built), doc, below);
      return Ref(node);
  }

  /** The document written out again. */
  method Snapshot(slot: Slot) returns (doc: Json)
    requires ValidSlot(slot)
    ensures doc == DocOf(slot)
    decreases DocOf(slot)
  {
    match slot
    case Scalar(atom) => return Leaf(atom);
    case Ref(node) =>
      match node.shape {
        case Members(members) =>
          var remaining, copied := members.Keys, map[];
          while remaining != {}
            invariant remaining <= members.Keys && copied.Keys == members.Keys - remaining
            invariant forall name :: name in copied ==> copied[name] == node.Doc.members[name]
          {
            var name :| name in remaining;
            EntryHolds(node, Field(name));
            var value := Snapshot(members[name]);
            copied, remaining := copied[name := value], remaining - {name};
          }
          assert copied == node.Doc.members;
          return Object(copied);
        case Items(items) =>
          var copied := [];
          for i := 0 to |items|
            invariant copied == node.Doc.items[..i]
          {
            EntryHolds(node, Item(i));
            var value := Snapshot(items[i]);
            copied := copied + [value];
          }
          return Array(copied);
      }
  }

  /** `_mask_at`. */
  method MaskAt(document: Slot, segments: seq<Segment>, index: nat, replacement: Atom) returns (found: bool)
    requires index <= |segments| && ValidSlot(document)
    modifies Footprint(document)
    ensures ValidSlot(document)
    ensures DocOf(document) == Mask(old(DocOf(document)), segments[index..], replacement)
    ensures found <==> Found(old(DocOf(document)), segments[index..])
    decreases |segments| - index, 2
  {
    if index >= |segments| {
      return false;
    }
    assert segments[index..][0] == segments[index] && segments[index..][1..] == segments[index + 1..];
    match segments[index] {
      case Wild =>
        if document.Scalar? || !document.node.shape.Items? {
          return false;
        }
        found := MaskItems(document.node, segments, index, replacement);
      case Index(digits) =>
        var position := DigitsValue(digits);
        if document.Scalar? || !document.node.shape.Items? || position >= |document.node.shape.items| {
          return false;
        }
        found := MaskEntry(document.node, Item(position), segments, index, replacement);
      case Key(name) =>
        if document.Scalar? || !document.node.shape.Members? || name !in document.node.shape.members {
          return false;
        }
        if index + 1 == |segments| {
          Overwrite(document.node, Field(name), replacement);
          return true;
        }
        found := MaskEntry(document.node, Field(name), segments, index, replacement);
    }
  }

  /** The recursive call on one entry. */
  method MaskEntry(node: Container, step: Step, segments: seq<Segment>, index: nat, replacement: Atom) returns (found: bool)
    requires index < |segments| && node.Valid() && SlotAt(node.shape, step).Some?
    modifies node.Repr
    ensures node.Valid() && node.shape == old(node.shape)
    ensures Child(old(node.Doc), step).Some?
    ensures node.Doc == With(old(node.Doc), step, Mask(Child(old(node.Doc), step).value, segments[index + 1..], replacement))
    ensures found <==> Found(Child(old(node.Doc), step).value, segments[index + 1..])
    decreases |segments| - index, 0
  {
    hide Mask, Found;
    var slot := SlotAt(node.shape, step).value;
    EntryHolds(node, step);
    ghost var before := node.Doc;
    found := MaskAt(slot, segments, index + 1, replacement);
    ghost var doc := With(before, step, DocOf(slot));
    forall s | SlotAt(node.shape, s).Some?
      ensures node.HoldsAt(SlotAt(node.shape, s).value, Child(doc, s))
    {
      var other := SlotAt(node.shape, s).value;
      assert old(node.HoldsAt(other, Child(before, s)));
      if s != step {
        assert Footprint(other) !! Footprint(slot);
      }
    }
    SetDoc(node, doc);
  }

  /** The loop over the items of a list; every item is masked, found or not. */
  method MaskItems(node: Container, segments: seq<Segment>, index: nat, replacement: Atom) returns (found: bool)
    requires index < |segments| && segments[index].Wild?
    requires node.Valid() && node.shape.Items?
    modifies node.Repr
    ensures node.Valid()
    ensures node.Doc == Mask(old(node.Doc), segments[index..], replacement)
    ensures found <==> Found(old(node.Doc), segments[index..])
    decreases |segments| - index, 1
  {
    found := false;
    ghost var before := node.Doc.items;
    for i := 0 to |node.shape.items|
      invariant node.Valid() && node.shape == old(node.shape)
      invariant forall k :: 0 <= k < i ==> node.Doc.items[k] == Mask(before[k], segments[index + 1..], replacement)
      invariant forall k :: i <= k < |before| ==> node.Doc.items[k] == before[k]
      invariant found <==> exists k :: 0 <= k < i && Found(before[k], segments[index + 1..])
    {
      var here := MaskEntry(node, Item(i), segments, index, replacement);
      found := here || found;
    }
  }

  /** `_mask_path`: replaces what the path names, and reports whether it named anything. */
  method MaskPath(document: Slot, path: string, replacement: Atom) returns (found: bool)
    requires ValidSlot(document)
    modifies Footprint(document)
    ensures ValidSlot(document)
    ensures DocOf(document) == Mask(old(DocOf(document)), Segments(path), replacement)
    ensures found <==> exists place :: Hit(old(DocOf(document)), Segments(path), place)
  {
    var segments := PathSegments(path);
    FoundIffHit(DocOf(document), segments);
    assert segments[0..] == segments;
    found := MaskAt(document, segments, 0, replacement);
  }
}
