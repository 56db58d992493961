/** The cases whose body depends on the host (`_host_dependent_mask`): the recorded document is
    rewritten in place along a list of paths, each of which must name something, and what is left
    is recorded under a comparison contract. */
module HostMasking {
  import opened Wrappers
  import opened Json
  import opened JsonPaths
  import opened MaskLaws
  import opened DocumentHeap
  import opened Declarations

  datatype HostError = NotAnObject | PathAbsent(index: nat)

  datatype Recorded = Recorded(body: Json, contract: Contract)

  function SegmentsOfAll(paths: seq<string>): seq<seq<Segment>> {
    seq(|paths|, i requires 0 <= i < |paths| => Segments(paths[i]))
  }

  // ----- What a path still names after earlier masks -----

  /** The place is gone once the path is masked: it lies strictly below a replaced one. */
  predicate Swallows(doc: Json, segments: seq<Segment>, place: Place) {
    |segments| < |place| && Hit(doc, segments, place[..|segments|])
  }

  predicate SwallowedBy(doc: Json, masks: seq<seq<Segment>>, place: Place) {
    exists i :: 0 <= i < |masks| && Swallows(doc, masks[i], place)
  }

  /** Masking hides from a path exactly the places strictly below a replaced one. */
  lemma HitAfterMask(doc: Json, masked: seq<Segment>, replacement: Atom, segments: seq<Segment>, place: Place)
    ensures Hit(Mask(doc, masked, replacement), segments, place) <==> Hit(doc, segments, place) && !Swallows(doc, masked, place)
  {
    hide Mask, NamesAll;
    MaskSemantics(doc, masked, replacement, place);
    assert place[..|place|] == place;
  }

  lemma {:induction false} HitAfterMasks(doc: Json, masks: seq<seq<Segment>>, replacement: Atom, segments: seq<Segment>, place: Place)
    ensures Hit(MaskAll(doc, masks, replacement), segments, place) <==> Hit(doc, segments, place) && !SwallowedBy(doc, masks, place)
  {
    if masks != [] {
      hide Hit, SwallowedBy, Mask;
      var earlier, last := masks[..|masks| - 1], masks[|masks| - 1];
      HitAfterMasks(doc, earlier, replacement, segments, place);
      HitAfterMask(MaskAll(doc, earlier, replacement), last, replacement, segments, place);
      if |last| < |place| {
        HitAfterMasks(doc, earlier, replacement, last, place[..|last|]);
        SwallowedAbove(doc, earlier, place, |last|);
      }
      SwallowedByOneMore(doc, earlier, last, place);
      assert masks == earlier + [last];
    } else {
      assert !SwallowedBy(doc, masks, place);
    }
  }

  /** What lies below a swallowed place is swallowed. */
  lemma SwallowedAbove(doc: Json, masks: seq<seq<Segment>>, place: Place, n: nat)
    requires n <= |place|
    ensures SwallowedBy(doc, masks, place[..n]) ==> SwallowedBy(doc, masks, place)
  {
    hide Hit;
    if SwallowedBy(doc, masks, place[..n]) {
      var i :| 0 <= i < |masks| && Swallows(doc, masks[i], place[..n]);
      assert place[..n][..|masks[i]|] == place[..|masks[i]|];
      assert Swallows(doc, masks[i], place);
    }
  }

  lemma SwallowedByOneMore(doc: Json, masks: seq<seq<Segment>>, last: seq<Segment>, place: Place)
    ensures SwallowedBy(doc, masks + [last], place) <==> SwallowedBy(doc, masks, place) || Swallows(doc, last, place)
  {
    var more := masks + [last];
    assert more[|masks|] == last && forall i :: 0 <= i < |masks| ==> more[i] == masks[i];
  }

  /** Some place of the document is named by the path and lies below no place that an earlier path
      replaces. */
  ghost predicate Present(doc: Json, paths: seq<string>, i: nat)
    requires i < |paths|
  {
    exists place: Place :: Hit(doc, Segments(paths[i]), place) && !SwallowedBy(doc, SegmentsOfAll(paths[..i]), place)
  }

  // ----- The mask -----

  /** The loop over the paths, in place. The first path that names nothing stops it. */
  method MaskEach(document: Slot, paths: seq<string>, replacement: Atom) returns (absent: Option<nat>)
    requires ValidSlot(document)
    modifies Footprint(document)
    ensures ValidSlot(document)
    ensures absent.Some? ==> absent.value < |paths| && !Present(old(DocOf(document)), paths, absent.value)
    ensures var done := if absent.None? then paths else paths[..absent.value];
            && DocOf(document) == MaskAll(old(DocOf(document)), SegmentsOfAll(done), replacement)
            && forall i :: 0 <= i < |done| ==> Present(old(DocOf(document)), paths, i)
  {
    ghost var before := DocOf(document);
    hide Mask, MaskAll, Hit, SwallowedBy, Segments;
    StartOfMasks(before, paths, replacement);
    for i := 0 to |paths|
      invariant ValidSlot(document)
      invariant DocOf(document) == MaskAll(before, SegmentsOfAll(paths[..i]), replacement)
      invariant forall k :: 0 <= k < i ==> Present(before, paths, k)
    {
      NextOfMasks(before, paths, i, replacement);
      var found := MaskPath(document, paths[i], replacement);
      if !found {
        return Some(i);
      }
    }
    assert paths[..|paths|] == paths;
    return None;
  }

  lemma StartOfMasks(doc: Json, paths: seq<string>, replacement: Atom)
    ensures MaskAll(doc, SegmentsOfAll(paths[..0]), replacement) == doc
  {
  }

  /** The next path is found exactly if it is present, and an absent one masks nothing. */
  lemma NextOfMasks(doc: Json, paths: seq<string>, i: nat, replacement: Atom)
    requires i < |paths|
    ensures var before := MaskAll(doc, SegmentsOfAll(paths[..i]), replacement);
            && ((exists place :: Hit(before, Segments(paths[i]), place)) <==> Present(doc, paths, i))
            && Mask(before, Segments(paths[i]), replacement) == MaskAll(doc, SegmentsOfAll(paths[..i + 1]), replacement)
            && (!Present(doc, paths, i) ==> Mask(before, Segments(paths[i]), replacement) == before)
  {
    hide Mask, Hit, SwallowedBy, Segments;
    var masks, segments := SegmentsOfAll(paths[..i]), Segments(paths[i]);
    var before := MaskAll(doc, masks, replacement);
    forall place: Place
      ensures Hit(before, segments, place) <==> Hit(doc, segments, place) && !SwallowedBy(doc, masks, place)
    {
      HitAfterMasks(doc, masks, replacement, segments, place);
    }
    MaskAllOneMore(doc, masks, segments, replacement);
    assert SegmentsOfAll(paths[..i + 1]) == masks + [segments];
    if !Present(doc, paths, i) {
      AbsentMasksNothing(before, segments, replacement);
    }
  }

  lemma MaskAllOneMore(doc: Json, masks: seq<seq<Segment>>, segments: seq<Segment>, replacement: Atom)
    ensures MaskAll(doc, masks + [segments], replacement) == Mask(MaskAll(doc, masks, replacement), segments, replacement)
  {
    assert (masks + [segments])[..|masks|] == masks;
  }

  lemma AbsentMasksNothing(doc: Json, segments: seq<Segment>, replacement: Atom)
    requires forall place :: !Hit(doc, segments, place)
    ensures Mask(doc, segments, replacement) == doc
  {
    hide Mask, Hit;
    forall place: Place
      ensures NodeAt(Mask(doc, segments, replacement), place) == NodeAt(doc, place)
    {
      MaskSemantics(doc, segments, replacement, place);
    }
    NodesDetermineDocument(Mask(doc, segments, replacement), doc);
  }

  /** The paths to declare: the masked ones that are not empty, and the extra ones. */
  function Given(masked: seq<string>, extra: seq<string>): set<string> {
    (set p | p in masked && p != "") + (set p | p in extra)
  }

  ghost predicate SeenLeaf(body: Json, d: string) {
    exists p: Place :: IsLeaf(body, p) && SeesPlaceholder(body, p) && d == LeafPath(p)
  }

  method WithoutEmpty(paths: seq<string>) returns (named: seq<string>)
    ensures forall p :: p in named <==> p in paths && p != ""
  {
    named := [];
    for i := 0 to |paths|
      invariant forall p :: p in named <==> p in paths[..i] && p != ""
    {
      if paths[i] != "" {
        named := named + [paths[i]];
      }
    }
  }

  lemma GivenIsNamed(masked: seq<string>, extra: seq<string>, named: seq<string>)
    requires forall p :: p in named <==> p in masked && p != ""
    ensures forall d :: d in named + extra <==> d in Given(masked, extra)
    ensures named + extra == [] <==> Given(masked, extra) == {}
  {
    if named + extra != [] {
      assert (named + extra)[0] in named + extra;
    }
  }

  /** The contract recorded with a body: every given path is declared, every other declaration is the
      path of a leaf seen to hold the placeholder, and the body is compared exactly if there is
      neither. */
  ghost predicate FitsBody(recorded: Recorded, given: set<string>, structural: bool) {
    var body, contract := recorded.body, recorded.contract;
    && (contract.Structural? <==> structural)
    && (contract.Exact? <==> !structural && given == {} && (body.Leaf? || forall p: Place :: IsLeaf(body, p) ==> !SeesPlaceholder(body, p)))
    && (contract.Fields? ==>
          && Distinct(contract.declared)
          && (forall d :: d in given ==> d in contract.declared)
          && (forall d :: d in contract.declared ==> d in given || (!body.Leaf? && SeenLeaf(body, d))))
  }

  /** `_apply_body_contracts` for one case. A host-dependent body has to be an object, is masked at
      its host's paths, and has exactly these declared from then on; the recorded document is
      written out from the masked one. */
  method RecordBody(body: Json, host: Option<seq<string>>, fields: seq<string>, extra: seq<string>, structural: bool)
      returns (r: Result<Recorded, HostError>)
    ensures host.None? ==> r.Ok? && r.value.body == body
    ensures host.Some? ==> (r.Ok? <==> body.Object? && forall i :: 0 <= i < |host.value| ==> Present(body, host.value, i))
    ensures host.Some? && r.Ok? ==> r.value.body == MaskAll(body, SegmentsOfAll(host.value), Text(VOLATILE_PLACEHOLDER))
    ensures r.Err? ==> (r.error == NotAnObject <==> !body.Object?)
    ensures r.Err? && body.Object? ==>
              r.error.index < |host.value| && !Present(body, host.value, r.error.index) && forall i :: 0 <= i < r.error.index ==> Present(body, host.value, i)
    ensures r.Ok? ==> FitsBody(r.value, Given(if host.Some? then host.value else fields, extra), structural)
    ensures r.Ok? && !structural && NamedKeys(r.value.body) && !r.value.body.Leaf? ==>
              forall p: Place :: At(r.value.body, p) == Some(PLACEHOLDER) ==> r.value.contract.Fields? && CoveredBy(r.value.contract.declared, LeafPath(p))
  {
    var recorded, declared := body, fields;
    if host.Some? {
      if !body.Object? {
        return Err(NotAnObject);
      }
      var document := Load(body);
      var absent := MaskEach(document, host.value, Text(VOLATILE_PLACEHOLDER));
      if absent.Some? {
        return Err(PathAbsent(absent.value));
      }
      recorded := Snapshot(document);
      declared := host.value;
    }
    var named := WithoutEmpty(declared);
    var given := named + extra;
    GivenIsNamed(declared, extra, named);
    var contract := BodyContract(recorded, given, structural);
    return Ok(Recorded(recorded, contract));
  }
}
