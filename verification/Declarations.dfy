/** The volatile-path declarations of a captured body, and the comparison contract they decide
    (`_volatile_declarations`, `_apply_body_contracts`). */
module Declarations {
  import opened Wrappers
  import opened Identifiers
  import opened Json
  import opened JsonPaths
  import opened MaskLaws

  const VOLATILE_PLACEHOLDER := "<VOLATILE>"

  const PLACEHOLDER: Json := Leaf(Text(VOLATILE_PLACEHOLDER))

  datatype Contract = Structural | Exact | Fields(declared: seq<string>)

  predicate CoversPath(declaration: string, path: string) {
    Covers(Segments(declaration), Segments(path))
  }

  predicate CoveredBy(declared: seq<string>, path: string) {
    exists i :: 0 <= i < |declared| && CoversPath(declared[i], path)
  }

  /** The path of a leaf as the generator prints it. */
  function LeafPath(place: Place): string {
    "$" + ShowAll(PathOf(place))
  }

  /** The generator sees the placeholder at a leaf only by looking its printed path up again. */
  predicate SeesPlaceholder(body: Json, place: Place) {
    ValueAt(body, Segments(LeafPath(place))) == Some(PLACEHOLDER)
  }

  /** An added declaration is the path of a leaf seen to hold the placeholder and not covered
      by the given ones. */
  ghost predicate Justified(body: Json, given: seq<string>, d: string) {
    exists p: Place :: IsLeaf(body, p) && SeesPlaceholder(body, p) && d == LeafPath(p) && !CoveredBy(given, d)
  }

  ghost predicate AllJustified(body: Json, given: seq<string>, declared: seq<string>) {
    forall d :: d in declared ==> d in given || Justified(body, given, d)
  }

  predicate Distinct(declared: seq<string>) {
    forall i, j :: 0 <= i < j < |declared| ==> declared[i] != declared[j]
  }

  method WithoutRepeats(given: seq<string>) returns (declared: seq<string>)
    ensures forall d :: d in given <==> d in declared
    ensures Distinct(declared)
  {
    declared := [];
    for i := 0 to |given|
      invariant forall d :: d in declared <==> d in given[..i]
      invariant Distinct(declared)
    {
      if given[i] !in declared {
        declared := declared + [given[i]];
      }
    }
  }

  /** The declared paths: those given, then every leaf seen to hold the placeholder that no
      earlier declaration covers. A body that is not a container adds nothing. */
  method VolatileDeclarations(body: Json, given: seq<string>) returns (declared: seq<string>)
    ensures forall d :: d in given ==> d in declared
    ensures body.Leaf? ==> forall d :: d in declared ==> d in given
    ensures !body.Leaf? ==> forall p: Place :: IsLeaf(body, p) && SeesPlaceholder(body, p) ==> CoveredBy(declared, LeafPath(p))
    ensures AllJustified(body, given, declared)
    ensures Distinct(declared)
  {
    hide Segments, ValueAt, PathOf, ShowAll, Covers, At;
    declared := WithoutRepeats(given);
    if body.Leaf? {
      return;
    }
    var paths := LeafPaths(body, "$");
    ghost var places :| ListsLeaves(body, "$", paths, places);
    for i := 0 to |paths|
      invariant forall d :: d in given ==> d in declared
      invariant forall k :: 0 <= k < i && SeesPlaceholder(body, places[k]) ==> CoveredBy(declared, paths[k])
      invariant AllJustified(body, given, declared)
      invariant Distinct(declared)
    {
      var value := LookUp(body, paths[i]);
      assert paths[i] == LeafPath(places[i]) && places[i] in places;
      if value == Some(PLACEHOLDER) && !CoveredBy(declared, paths[i]) {
        DeclaredIsCovered(declared, paths[i]);
        DeclareLeaf(body, given, declared, places[i]);
        forall k | 0 <= k < i && SeesPlaceholder(body, places[k])
          ensures CoveredBy(declared + [paths[i]], paths[k])
        {
          CoverIsMonotone(declared, declared + [paths[i]], paths[k]);
        }
        declared := declared + [paths[i]];
      }
    }
    forall p: Place | IsLeaf(body, p) && SeesPlaceholder(body, p)
      ensures CoveredBy(declared, LeafPath(p))
    {
      assert p in places;
      var k :| 0 <= k < |places| && places[k] == p;
      assert paths[k] == LeafPath(p);
    }
  }

  lemma DeclareLeaf(body: Json, given: seq<string>, declared: seq<string>, place: Place)
    requires AllJustified(body, given, declared) && (forall d :: d in given ==> d in declared)
    requires IsLeaf(body, place) && SeesPlaceholder(body, place) && !CoveredBy(declared, LeafPath(place))
    ensures AllJustified(body, given, declared + [LeafPath(place)])
    ensures CoveredBy(declared + [LeafPath(place)], LeafPath(place))
  {
    if CoveredBy(given, LeafPath(place)) {
      CoverOfSubset(given, declared, LeafPath(place));
    }
    assert Justified(body, given, LeafPath(place));
    assert CoversPath((declared + [LeafPath(place)])[|declared|], LeafPath(place));
  }

  lemma DeclaredIsCovered(declared: seq<string>, path: string)
    ensures path in declared ==> CoveredBy(declared, path)
  {
    hide Segments;
    if path in declared {
      var k :| 0 <= k < |declared| && declared[k] == path;
      assert CoversPath(declared[k], path);
    }
  }

  lemma CoverIsMonotone(declared: seq<string>, more: seq<string>, path: string)
    requires declared <= more && CoveredBy(declared, path)
    ensures CoveredBy(more, path)
  {
  }

  lemma CoverOfSubset(given: seq<string>, declared: seq<string>, path: string)
    requires (forall d :: d in given ==> d in declared) && CoveredBy(given, path)
    ensures CoveredBy(declared, path)
  {
    var i :| 0 <= i < |given| && CoversPath(given[i], path);
    assert given[i] in declared;
    var k :| 0 <= k < |declared| && declared[k] == given[i];
    assert CoversPath(declared[k], path);
  }

  // ----- Which placeholders are seen -----

  /** The place that a path without wildcards names. */
  function PlaceOf(segments: seq<Segment>): (r: Place)
    requires forall i :: 0 <= i < |segments| ==> !segments[i].Wild?
    ensures |r| == |segments|
  {
    seq(|segments|, i requires 0 <= i < |segments| => if segments[i].Key? then Field(segments[i].name) else Item(DigitsValue(segments[i].digits)))
  }

  predicate HasWild(segments: seq<Segment>) {
    exists i :: 0 <= i < |segments| && segments[i].Wild?
  }

  /** Looking a path up is looking at the place it names; a wildcard names none. */
  lemma {:induction false} LookupIsPlace(doc: Json, segments: seq<Segment>)
    ensures ValueAt(doc, segments) == if HasWild(segments) then None else At(doc, PlaceOf(segments))
    decreases |segments|
  {
    if segments != [] {
      var rest := segments[1..];
      assert HasWild(rest) ==> HasWild(segments);
      assert HasWild(segments) && !segments[0].Wild? ==> HasWild(rest);
      if !HasWild(segments) {
        assert PlaceOf(segments)[1..] == PlaceOf(rest);
      }
      match segments[0]
      case Wild =>
      case Index(digits) =>
        if doc.Array? && DigitsValue(digits) < |doc.items| {
          LookupIsPlace(doc.items[DigitsValue(digits)], rest);
        }
      case Key(name) =>
        if doc.Object? && name in doc.members {
          LookupIsPlace(doc.members[name], rest);
        }
    }
  }

  /** The document that holds the placeholder at one place, and nothing else but nulls before it. */
  function Only(place: Place): Json
    decreases |place|
  {
    if place == [] then PLACEHOLDER
    else
      match place[0]
      case Field(name) => Object(map[name := Only(place[1..])])
      case Item(i) => Array(seq(i, _ => Leaf(Null)) + [Only(place[1..])])
  }

  lemma {:induction false} OnlyThere(place: Place, other: Place)
    ensures At(Only(place), other) == Some(PLACEHOLDER) <==> other == place
    decreases |place|
  {
    var doc := Only(place);
    if place == [] {
      assert other != [] ==> Child(doc, other[0]).None?;
    } else if other != [] {
      if other[0] == place[0] {
        OnlyThere(place[1..], other[1..]);
        assert other == [other[0]] + other[1..] && place == [place[0]] + place[1..];
      } else if Child(doc, other[0]).Some? {
        LeafHasNothingBelow(Null, other[1..]);
      }
    }
  }

  /** A place is always seen for what it holds, in every document that has a leaf there, if and
      only if all its keys are identifiers. */
  lemma SeenIffNamed(place: Place)
    ensures NamedPlace(place) <==>
            forall doc :: IsLeaf(doc, place) ==> (SeesPlaceholder(doc, place) <==> At(doc, place) == Some(PLACEHOLDER))
  {
    assert LeafPath(place) == Show(PathOf(place));
    if NamedPlace(place) {
      forall doc | IsLeaf(doc, place)
        ensures SeesPlaceholder(doc, place) <==> At(doc, place) == Some(PLACEHOLDER)
      {
        LookupUndoesPrint(doc, place);
      }
    } else {
      OnlyThere(place, place);
      OddPlaceIsUnseen(place);
      assert IsLeaf(Only(place), place);
    }
  }

  lemma PrintablePlaceIsNamed(segments: seq<Segment>)
    requires Printable(segments) && !HasWild(segments)
    ensures NamedPlace(PlaceOf(segments))
  {
  }

  /** The document that shows it: the printed path of a place with another key names another
      place, or none. */
  lemma OddPlaceIsUnseen(place: Place)
    requires !NamedPlace(place)
    ensures !SeesPlaceholder(Only(place), place)
  {
    hide Segments, ShowAll, PathOf, At, Only;
    var segments := Segments(LeafPath(place));
    SegmentsArePrintable(LeafPath(place));
    LookupIsPlace(Only(place), segments);
    if !HasWild(segments) {
      OnlyThere(place, PlaceOf(segments));
      PrintablePlaceIsNamed(segments);
    }
  }

  /** In a document whose keys are identifiers, the generator sees every placeholder. */
  lemma NamedLeavesAreSeen(body: Json, place: Place)
    requires NamedKeys(body) && At(body, place).Some?
    ensures SeesPlaceholder(body, place) <==> At(body, place) == Some(PLACEHOLDER)
  {
    LookupUndoesPrint(body, place);
    assert LeafPath(place) == Show(PathOf(place));
  }

  /** The contract of a body. It is compared exactly if and only if nothing was declared and no
      leaf of a container is seen to hold the placeholder. With identifier keys every placeholder
      is covered by a declaration, so a container compared exactly then holds none at all. */
  method BodyContract(body: Json, given: seq<string>, structural: bool) returns (contract: Contract)
    ensures contract.Structural? <==> structural
    ensures contract.Exact? <==> !structural && given == [] && (body.Leaf? || forall p: Place :: IsLeaf(body, p) ==> !SeesPlaceholder(body, p))
    ensures contract.Fields? ==> contract.declared != [] && Distinct(contract.declared) && forall d :: d in given ==> d in contract.declared
    ensures contract.Fields? ==> AllJustified(body, given, contract.declared) && (body.Leaf? ==> forall d :: d in contract.declared ==> d in given)
    ensures !structural && !body.Leaf? && NamedKeys(body) ==>
              forall p: Place :: At(body, p) == Some(PLACEHOLDER) ==> contract.Fields? && CoveredBy(contract.declared, LeafPath(p))
    ensures !structural && given == [] && !body.Leaf? && NamedKeys(body) ==>
              (contract.Exact? <==> forall p: Place :: At(body, p) != Some(PLACEHOLDER))
  {
    hide Segments, ValueAt, ShowAll, Covers, NamedKeys, SeesPlaceholder, IsLeaf;
    if structural {
      return Structural;
    }
    var declared := VolatileDeclarations(body, given);
    if NamedKeys(body) {
      NamedPlaceholdersAreSeen(body);
    }
    if given != [] {
      assert given[0] in declared;
    } else if declared != [] {
      assert declared[0] in declared;
      assert !body.Leaf?;
      assert Justified(body, given, declared[0]);
      ghost var seen: Place :| IsLeaf(body, seen) && SeesPlaceholder(body, seen);
      assert NamedKeys(body) ==> At(body, seen) == Some(PLACEHOLDER);
    } else {
      assert forall path :: !CoveredBy(declared, path);
      assert !body.Leaf? && NamedKeys(body) ==> forall p: Place :: At(body, p) == Some(PLACEHOLDER) ==> CoveredBy(declared, LeafPath(p));
    }
    contract := if declared != [] then Fields(declared) else Exact;
  }

  lemma NamedPlaceholdersAreSeen(body: Json)
    requires NamedKeys(body)
    ensures forall p: Place :: At(body, p) == Some(PLACEHOLDER) ==> IsLeaf(body, p) && SeesPlaceholder(body, p)
    ensures forall p: Place :: IsLeaf(body, p) && SeesPlaceholder(body, p) ==> At(body, p) == Some(PLACEHOLDER)
  {
    forall p: Place
      ensures At(body, p) == Some(PLACEHOLDER) <==> IsLeaf(body, p) && SeesPlaceholder(body, p)
    {
      if At(body, p).Some? {
        NamedLeavesAreSeen(body, p);
      }
    }
  }

  /** A container that holds a placeholder and is compared exactly all the same: its one key is
      not an identifier, and no leaf of it is seen. */
  lemma OddKeysHidePlaceholders()
    ensures var body := Object(map["a-b" := PLACEHOLDER]);
            At(body, [Field("a-b")]) == Some(PLACEHOLDER) && forall p: Place :: IsLeaf(body, p) ==> !SeesPlaceholder(body, p)
  {
    var body := Object(map["a-b" := PLACEHOLDER]);
    var place := [Field("a-b")];
    OneSegmentHit(body, [Key("a-b")], Field("a-b"));
    assert PathOf(place) == [Key("a-b")];
    assert LeafPath(place) == "$.a-b";
    OddPathSplits();
    forall p: Place | IsLeaf(body, p)
      ensures p == place
    {
      assert p != [] && p[0] == Field("a-b") && p == [p[0]] + p[1..];
      LeafHasNothingBelow(Text(VOLATILE_PLACEHOLDER), p[1..]);
    }
  }

  /** Not every such key hides one: beside a key `a` that holds the placeholder too, `a-b` is
      taken for it and seen. */
  lemma OddKeysMayBeSeen()
    ensures SeesPlaceholder(Object(map["a" := PLACEHOLDER, "a-b" := PLACEHOLDER]), [Field("a-b")])
  {
    assert PathOf([Field("a-b")]) == [Key("a-b")];
    assert LeafPath([Field("a-b")]) == "$.a-b";
    OddPathSplits();
    assert [Key("a")][1..] == [];
  }

  lemma OddPathSplits()
    ensures Segments("$.a-b") == [Key("a")]
  {
    assert "$.a-b"[1..] == "." + "a" + "-b";
    MatchesShownKey("a", "-b");
    assert ("." + "a" + "-b")[2..] == "-b" && "-b"[1..] == "b" && "b"[1..] == "";
    assert Segments("b") == [];
    assert Segments("-b") == [];
    assert MatchSegment("$.a-b").None?;
  }
}
