/** The algebra of masking: when it reports success, idempotence, commutation, dependence on
    the set of paths only, and its relation to `_covers`. */
module MaskLaws {
  import opened Wrappers
  import opened Identifiers
  import opened Json

  // ----- The report -----

  /** `_mask_path` returns true exactly when some place in the document is replaced. */
  lemma {:induction false} FoundIffHit(doc: Json, segments: seq<Segment>)
    ensures Found(doc, segments) <==> exists place :: Hit(doc, segments, place)
    decreases |segments|
  {
    if Found(doc, segments) {
      var place := HitWitness(doc, segments);
    }
    if place: Place :| Hit(doc, segments, place) {
      HitIsFound(doc, segments, place);
    }
  }

  lemma {:induction false} HitWitness(doc: Json, segments: seq<Segment>) returns (place: Place)
    requires Found(doc, segments)
    ensures Hit(doc, segments, place)
    decreases |segments|
  {
    var step: Step;
    match segments[0] {
      case Wild =>
        var i :| 0 <= i < |doc.items| && Found(doc.items[i], segments[1..]);
        step := Item(i);
      case Index(digits) => step := Item(DigitsValue(digits));
      case Key(name) => step := Field(name);
    }
    if |segments| == 1 {
      place := [step];
      OneSegmentHit(doc, segments, step);
    } else {
      var below := HitWitness(Child(doc, step).value, segments[1..]);
      place := [step] + below;
      assert place[1..] == below;
      HitBelow(doc, segments, place);
    }
  }

  lemma {:induction false} HitIsFound(doc: Json, segments: seq<Segment>, place: Place)
    requires Hit(doc, segments, place)
    ensures Found(doc, segments)
    decreases |segments|
  {
    var step := place[0];
    assert Names(segments[0], step);
    if |segments| > 1 {
      HitBelow(doc, segments, place);
      HitIsFound(Child(doc, step).value, segments[1..], place[1..]);
    } else {
      assert place == [step];
      OneSegmentHit(doc, segments, step);
    }
  }

  // ----- Idempotence and commutation -----

  /** Masking the same path twice with the same placeholder is masking it once. */
  lemma {:induction false} MaskIsIdempotent(doc: Json, segments: seq<Segment>, replacement: Atom)
    ensures Mask(Mask(doc, segments, replacement), segments, replacement) == Mask(doc, segments, replacement)
    decreases |segments|
  {
    if segments != [] {
      var rest, once := segments[1..], Mask(doc, segments, replacement);
      match segments[0]
      case Wild =>
        if doc.Array? {
          forall i | 0 <= i < |doc.items|
            ensures Mask(once.items[i], rest, replacement) == once.items[i]
          {
            MaskIsIdempotent(doc.items[i], rest, replacement);
          }
          assert Mask(once, segments, replacement).items == once.items;
        }
      case Index(digits) =>
        if doc.Array? && DigitsValue(digits) < |doc.items| {
          MaskIsIdempotent(doc.items[DigitsValue(digits)], rest, replacement);
          assert Mask(once, segments, replacement).items == once.items;
        }
      case Key(name) =>
        if doc.Object? && name in doc.members {
          MaskIsIdempotent(doc.members[name], rest, replacement);
          assert Mask(once, segments, replacement).members == once.members;
        }
    }
  }

  /** Masks of any two paths with one placeholder commute, even when one path is a prefix of
      the other. */
  lemma {:induction false} MasksCommute(doc: Json, s: seq<Segment>, t: seq<Segment>, replacement: Atom)
    ensures Mask(Mask(doc, s, replacement), t, replacement) == Mask(Mask(doc, t, replacement), s, replacement)
    decreases |s|
  {
    if s != [] && t != [] {
      if doc.Object? && s[0].Key? && t[0].Key? {
        MaskedMembersCommute(doc, s, t, replacement);
      } else if doc.Array? && !s[0].Key? && !t[0].Key? {
        MaskedItemsCommute(doc, s, t, replacement);
      }
    }
  }

  lemma {:induction false} MaskedMembersCommute(doc: Json, s: seq<Segment>, t: seq<Segment>, replacement: Atom)
    requires doc.Object? && s != [] && t != [] && s[0].Key? && t[0].Key?
    ensures Mask(Mask(doc, s, replacement), t, replacement) == Mask(Mask(doc, t, replacement), s, replacement)
    decreases |s|, 0
  {
    var st, ts := Mask(Mask(doc, s, replacement), t, replacement), Mask(Mask(doc, t, replacement), s, replacement);
    forall name | name in doc.members
      ensures Child(st, Field(name)) == Child(ts, Field(name))
    {
      MaskChild(doc, s, replacement, Field(name));
      MaskChild(doc, t, replacement, Field(name));
      MaskChild(Mask(doc, s, replacement), t, replacement, Field(name));
      MaskChild(Mask(doc, t, replacement), s, replacement, Field(name));
      MasksCommute(doc.members[name], s[1..], t[1..], replacement);
    }
    assert st.members == ts.members;
  }

  lemma {:induction false} MaskedItemsCommute(doc: Json, s: seq<Segment>, t: seq<Segment>, replacement: Atom)
    requires doc.Array? && s != [] && t != [] && !s[0].Key? && !t[0].Key?
    ensures Mask(Mask(doc, s, replacement), t, replacement) == Mask(Mask(doc, t, replacement), s, replacement)
    decreases |s|, 0
  {
    var st, ts := Mask(Mask(doc, s, replacement), t, replacement), Mask(Mask(doc, t, replacement), s, replacement);
    forall i | 0 <= i < |doc.items|
      ensures st.items[i] == ts.items[i]
    {
      MaskedItem(doc, s, replacement, i);
      MaskedItem(doc, t, replacement, i);
      MaskedItem(Mask(doc, s, replacement), t, replacement, i);
      MaskedItem(Mask(doc, t, replacement), s, replacement, i);
      MasksCommute(doc.items[i], s[1..], t[1..], replacement);
    }
    assert st.items == ts.items;
  }

  /** One item of a masked list. */
  lemma MaskedItem(doc: Json, segments: seq<Segment>, replacement: Atom, i: nat)
    requires doc.Array? && segments != [] && !segments[0].Key? && i < |doc.items|
    ensures var masked := Mask(doc, segments, replacement);
            && masked.Array? && |masked.items| == |doc.items|
            && masked.items[i] == if Names(segments[0], Item(i)) then Mask(doc.items[i], segments[1..], replacement) else doc.items[i]
  {
  }

  // ----- Sets of paths -----

  /** Masking a list of paths in order. */
  function MaskAll(doc: Json, paths: seq<seq<Segment>>, replacement: Atom): Json {
    if paths == [] then doc else Mask(MaskAll(doc, paths[..|paths| - 1], replacement), paths[|paths| - 1], replacement)
  }

  lemma {:induction false} MaskAllCommutes(doc: Json, paths: seq<seq<Segment>>, segments: seq<Segment>, replacement: Atom)
    ensures Mask(MaskAll(doc, paths, replacement), segments, replacement) == MaskAll(Mask(doc, segments, replacement), paths, replacement)
  {
    if paths != [] {
      var earlier, last := paths[..|paths| - 1], paths[|paths| - 1];
      MasksCommute(MaskAll(doc, earlier, replacement), last, segments, replacement);
      MaskAllCommutes(doc, earlier, segments, replacement);
    }
  }

  /** A path already masked can be masked again without effect. */
  lemma {:induction false} MaskedPathIsAbsorbed(doc: Json, paths: seq<seq<Segment>>, segments: seq<Segment>, replacement: Atom)
    requires segments in paths
    ensures Mask(MaskAll(doc, paths, replacement), segments, replacement) == MaskAll(doc, paths, replacement)
  {
    var earlier, last := paths[..|paths| - 1], paths[|paths| - 1];
    assert paths == earlier + [last];
    if segments == last {
      MaskIsIdempotent(MaskAll(doc, earlier, replacement), last, replacement);
    } else {
      MasksCommute(MaskAll(doc, earlier, replacement), last, segments, replacement);
      MaskedPathIsAbsorbed(doc, earlier, segments, replacement);
    }
  }

  lemma {:induction false} MaskedPathsAreAbsorbed(doc: Json, paths: seq<seq<Segment>>, more: seq<seq<Segment>>, replacement: Atom)
    requires forall p :: p in more ==> p in paths
    ensures MaskAll(MaskAll(doc, paths, replacement), more, replacement) == MaskAll(doc, paths, replacement)
  {
    if more != [] {
      assert forall p :: p in more[..|more| - 1] ==> p in more;
      MaskedPathsAreAbsorbed(doc, paths, more[..|more| - 1], replacement);
      MaskedPathIsAbsorbed(doc, paths, more[|more| - 1], replacement);
    }
  }

  lemma {:induction false} MaskAllTwiceCommutes(doc: Json, a: seq<seq<Segment>>, b: seq<seq<Segment>>, replacement: Atom)
    ensures MaskAll(MaskAll(doc, a, replacement), b, replacement) == MaskAll(MaskAll(doc, b, replacement), a, replacement)
  {
    if b != [] {
      var earlier, last := b[..|b| - 1], b[|b| - 1];
      MaskAllTwiceCommutes(doc, a, earlier, replacement);
      MaskAllCommutes(MaskAll(doc, earlier, replacement), a, last, replacement);
    }
  }

  /** The masked document depends only on the set of declared paths: not on their order, and
      not on how often one is declared. */
  lemma MaskingDependsOnTheSet(doc: Json, a: seq<seq<Segment>>, b: seq<seq<Segment>>, replacement: Atom)
    requires forall p :: p in a <==> p in b
    ensures MaskAll(doc, a, replacement) == MaskAll(doc, b, replacement)
  {
    MaskedPathsAreAbsorbed(doc, a, b, replacement);
    MaskedPathsAreAbsorbed(doc, b, a, replacement);
    MaskAllTwiceCommutes(doc, a, b, replacement);
  }

  // ----- Coverage -----

  /** `_covers` on split paths: it compares segments as text, and a wildcard covers anything. */
  predicate Covers(declared: seq<Segment>, concrete: seq<Segment>) {
    |declared| == |concrete| && forall i :: 0 <= i < |declared| ==> declared[i].Wild? || declared[i] == concrete[i]
  }

  function SegmentOf(step: Step): Segment {
    match step
    case Field(name) => Key(name)
    case Item(i) => Index(Decimal(i))
  }

  /** The concrete path of a place. */
  function PathOf(place: Place): (r: seq<Segment>)
    ensures |r| == |place|
  {
    seq(|place|, i requires 0 <= i < |place| => SegmentOf(place[i]))
  }

  /** No index is written with leading zeros. */
  predicate CanonicalIndices(segments: seq<Segment>) {
    forall i :: 0 <= i < |segments| && segments[i].Index? ==> segments[i].digits == Decimal(DigitsValue(segments[i].digits))
  }

  /** A replaced place is covered by the path that replaced it exactly when the path writes its
      indices without leading zeros: masking reads an index as a number, coverage as text. */
  lemma HitIsCoveredIffCanonical(doc: Json, segments: seq<Segment>, place: Place)
    requires Hit(doc, segments, place)
    ensures Covers(segments, PathOf(place)) <==> CanonicalIndices(segments)
  {
  }

  /** The other way: a covered place of the document whose wildcards stand for list items is
      replaced, if the path ends in a key. */
  lemma CoveredPlaceIsHit(doc: Json, segments: seq<Segment>, place: Place)
    requires EndsInKey(segments) && At(doc, place).Some? && Covers(segments, PathOf(place))
    requires forall i :: 0 <= i < |place| && segments[i].Wild? ==> place[i].Item?
    ensures Hit(doc, segments, place)
  {
    forall i | 0 <= i < |place|
      ensures Names(segments[i], place[i])
    {
      assert PathOf(place)[i] == SegmentOf(place[i]);
      if place[i].Item? {
        DecimalReadsBack(place[i].index);
      }
    }
  }

  /** Masking by a canonical path changes only places at or below one that the path covers. */
  lemma MaskFrame(doc: Json, segments: seq<Segment>, replacement: Atom, place: Place)
    requires CanonicalIndices(segments)
    requires NodeAt(Mask(doc, segments, replacement), place) != NodeAt(doc, place)
    ensures |segments| <= |place| && Covers(segments, PathOf(place[..|segments|]))
  {
    MaskSemantics(doc, segments, replacement, place);
    HitIsCoveredIffCanonical(doc, segments, place[..|segments|]);
  }

  /** With a leading zero the two readings part: `[03]` replaces item 3 but does not cover it. */
  lemma LeadingZeroIsNotCovered()
    ensures var segments := [Key("a"), Index("03"), Key("b")];
            exists doc, place :: Hit(doc, segments, place) && !Covers(segments, PathOf(place))
  {
    var segments := [Key("a"), Index("03"), Key("b")];
    var item := Object(map["b" := Leaf(Null)]);
    var doc := Object(map["a" := Array([item, item, item, item])]);
    var place := [Field("a"), Item(3), Field("b")];
    LeadingZeroReadsThree();
    assert place[1..] == [Item(3), Field("b")] && place[1..][1..] == [Field("b")] && place[1..][1..][1..] == [];
    assert At(doc, place) == Some(Leaf(Null));
    assert Hit(doc, segments, place);
    HitIsCoveredIffCanonical(doc, segments, place);
    assert Decimal(3) == "3";
    assert segments[1].Index?;
  }

  lemma LeadingZeroReadsThree()
    ensures DigitsValue("03") == 3
  {
  }
}
