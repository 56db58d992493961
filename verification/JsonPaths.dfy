/** The textual paths of the corpus: splitting them, printing them, enumerating the leaves of a
    document, and looking values up again (`generate_corpus.py`). */
module JsonPaths {
  import opened Wrappers
  import opened Identifiers
  import opened Json
  import opened MaskLaws

  predicate IsNameStart(c: char) {
    'A' <= c <= 'Z' || 'a' <= c <= 'z' || c == '_'
  }

  predicate IsNameChar(c: char) {
    IsNameStart(c) || IsDigit(c)
  }

  /** What a key of a path starts with and holds, by character codes. */
  lemma NameCharacters(c: char)
    ensures var n := c as int;
            && (IsNameStart(c) <==> 65 <= n <= 90 || 97 <= n <= 122 || n == 95)
            && (IsNameChar(c) <==> 48 <= n <= 57 || 65 <= n <= 90 || 97 <= n <= 122 || n == 95)
  {
  }

  predicate IsName(s: string) {
    s != [] && IsNameStart(s[0]) && forall i :: 0 <= i < |s| ==> IsNameChar(s[i])
  }

  /** The length of the longest prefix of name characters. */
  function NameSpan(s: string): (n: nat)
    ensures n <= |s| && (forall i :: 0 <= i < n ==> IsNameChar(s[i])) && (n < |s| ==> !IsNameChar(s[n]))
  {
    if s == [] || !IsNameChar(s[0]) then 0
    else
      assert forall i :: 0 < i <= 1 + NameSpan(s[1..]) && i < |s| ==> s[i] == s[1..][i - 1];
      1 + NameSpan(s[1..])
  }

  function DigitSpan(s: string): (n: nat)
    ensures n <= |s| && (forall i :: 0 <= i < n ==> IsDigit(s[i])) && (n < |s| ==> !IsDigit(s[n]))
  {
    if s == [] || !IsDigit(s[0]) then 0
    else
      assert forall i :: 0 < i <= 1 + DigitSpan(s[1..]) && i < |s| ==> s[i] == s[1..][i - 1];
      1 + DigitSpan(s[1..])
  }

  /** The segment the pattern matches at the start of a text, and how much it consumes. */
  function MatchSegment(s: string): (r: Option<(Segment, nat)>)
    ensures r.Some? ==> 0 < r.value.1 <= |s|
  {
    if |s| >= 2 && s[0] == '.' && IsNameStart(s[1]) then
      var n := NameSpan(s[1..]);
      Some((Key(s[1..1 + n]), 1 + n))
    else if |s| >= 3 && s[0] == '[' && s[1] == '*' && s[2] == ']' then Some((Wild, 3))
    else if |s| >= 3 && s[0] == '[' then
      var n := DigitSpan(s[1..]);
      if n > 0 && 1 + n < |s| && s[1 + n] == ']' then
        assert forall i :: 0 <= i < n ==> s[1..1 + n][i] == s[1..][i];
        Some((Index(s[1..1 + n]), n + 2))
      else None
    else None
  }

  /** All matches from left to right; text that matches nothing is skipped. */
  function Segments(s: string): seq<Segment>
    decreases |s|
  {
    if s == [] then []
    else
      var m := MatchSegment(s);
      if m.Some? then [m.value.0] + Segments(s[m.value.1..]) else Segments(s[1..])
  }

  /** `_path_segments`: scan the text and collect the segments. */
  method PathSegments(path: string) returns (segments: seq<Segment>)
    ensures segments == Segments(path)
  {
    segments := [];
    var i := 0;
    while i < |path|
      invariant 0 <= i <= |path|
      invariant segments + Segments(path[i..]) == Segments(path)
    {
      var m := MatchSegment(path[i..]);
      if m.Some? {
        assert path[i..][m.value.1..] == path[i + m.value.1..];
        segments := segments + [m.value.0];
        i := i + m.value.1;
      } else {
        assert path[i..][1..] == path[i + 1..];
        i := i + 1;
      }
    }
  }

  // ----- Printing -----

  function ShowSegment(segment: Segment): string {
    match segment
    case Key(name) => "." + name
    case Index(digits) => "[" + digits + "]"
    case Wild => "[*]"
  }

  function ShowAll(segments: seq<Segment>): string {
    if segments == [] then "" else ShowSegment(segments[0]) + ShowAll(segments[1..])
  }

  function Show(segments: seq<Segment>): string {
    "$" + ShowAll(segments)
  }

  predicate Printable(segments: seq<Segment>) {
    forall i :: 0 <= i < |segments| && segments[i].Key? ==> IsName(segments[i].name)
  }

  lemma ShownStartsOutsideNames(segments: seq<Segment>)
    ensures var s := ShowAll(segments); s == [] || !IsNameChar(s[0])
  {
  }

  lemma MatchesShownKey(name: string, tail: string)
    requires IsName(name) && (tail == [] || !IsNameChar(tail[0]))
    ensures MatchSegment("." + name + tail) == Some((Key(name), 1 + |name|))
  {
    var s := "." + name + tail;
    assert s[1..] == name + tail;
    SpanOf(name, tail);
    assert s[1..1 + |name|] == name;
  }

  lemma MatchesShownIndex(digits: Numeral, tail: string)
    ensures MatchSegment("[" + digits + "]" + tail) == Some((Index(digits), 2 + |digits|))
  {
    var s := "[" + digits + "]" + tail;
    assert s[1..] == digits + ("]" + tail);
    assert ("]" + tail)[0] == ']';
    DigitSpanOf(digits, "]" + tail);
    assert s[1..1 + |digits|] == digits && s[1 + |digits|] == ']';
    assert s[1] == digits[0];
  }

  lemma MatchesShown(segment: Segment, tail: string)
    requires segment.Key? ==> IsName(segment.name)
    requires tail == [] || !IsNameChar(tail[0])
    ensures MatchSegment(ShowSegment(segment) + tail) == Some((segment, |ShowSegment(segment)|))
  {
    hide MatchSegment;
    match segment
    case Key(name) => MatchesShownKey(name, tail);
    case Index(digits) => MatchesShownIndex(digits, tail);
    case Wild => MatchesShownWild(tail);
  }

  lemma MatchesShownWild(tail: string)
    ensures MatchSegment("[*]" + tail) == Some((Wild, 3))
  {
  }

  lemma {:induction false} SpanOf(name: string, tail: string)
    requires forall i :: 0 <= i < |name| ==> IsNameChar(name[i])
    requires tail == [] || !IsNameChar(tail[0])
    ensures NameSpan(name + tail) == |name|
  {
    if name == [] {
      assert name + tail == tail;
    } else {
      assert (name + tail)[1..] == name[1..] + tail;
      SpanOf(name[1..], tail);
    }
  }

  lemma {:induction false} DigitSpanOf(digits: string, tail: string)
    requires forall i :: 0 <= i < |digits| ==> IsDigit(digits[i])
    requires tail == [] || !IsDigit(tail[0])
    ensures DigitSpan(digits + tail) == |digits|
  {
    if digits == [] {
      assert digits + tail == tail;
    } else {
      assert (digits + tail)[1..] == digits[1..] + tail;
      DigitSpanOf(digits[1..], tail);
    }
  }

  /** Splitting a printed path gives the segments back. */
  lemma {:induction false} SplitUndoesShow(segments: seq<Segment>)
    requires Printable(segments)
    ensures Segments(Show(segments)) == segments
  {
    SplitUndoesShowAll(segments);
    assert Show(segments)[1..] == ShowAll(segments);
    assert MatchSegment(Show(segments)).None?;
  }

  lemma {:induction false} SplitUndoesShowAll(segments: seq<Segment>)
    requires Printable(segments)
    ensures Segments(ShowAll(segments)) == segments
  {
    if segments != [] {
      var tail := ShowAll(segments[1..]);
      ShownStartsOutsideNames(segments[1..]);
      MatchesShown(segments[0], tail);
      assert (ShowSegment(segments[0]) + tail)[|ShowSegment(segments[0])|..] == tail;
      SplitUndoesShowAll(segments[1..]);
    }
  }

  /** `_fold_indices`: the printed path with every concrete index written as `[*]`. */
  function Folded(segments: seq<Segment>): (r: seq<Segment>)
    ensures |r| == |segments|
    ensures forall i :: 0 <= i < |r| ==> r[i] == if segments[i].Index? then Wild else segments[i]
  {
    seq(|segments|, i requires 0 <= i < |segments| => if segments[i].Index? then Wild else segments[i])
  }

  lemma {:induction false} SegmentsArePrintable(s: string)
    ensures Printable(Segments(s))
    decreases |s|
  {
    if s != [] {
      var m := MatchSegment(s);
      if m.Some? {
        SegmentsArePrintable(s[m.value.1..]);
        if m.value.0.Key? {
          assert forall i :: 0 <= i < |m.value.0.name| ==> m.value.0.name[i] == s[1..][i];
        }
      } else {
        SegmentsArePrintable(s[1..]);
      }
    }
  }

  /** Folding a path and folding it again give the same shape key, which splits back into the
      folded segments. */
  lemma FoldIsStable(path: string)
    ensures Segments(Show(Folded(Segments(path)))) == Folded(Segments(path))
    ensures Folded(Folded(Segments(path))) == Folded(Segments(path))
  {
    SegmentsArePrintable(path);
    SplitUndoesShow(Folded(Segments(path)));
  }

  /** Two paths have one shape key exactly if they differ only in which items they name. */
  lemma FoldForgetsIndices(a: seq<Segment>, b: seq<Segment>)
    ensures Folded(a) == Folded(b) <==>
            |a| == |b| && forall i :: 0 <= i < |a| ==> a[i] == b[i] || (!a[i].Key? && !b[i].Key?)
  {
    if Folded(a) == Folded(b) {
      assert |a| == |b|;
      forall i | 0 <= i < |a|
        ensures a[i] == b[i] || (!a[i].Key? && !b[i].Key?)
      {
        assert Folded(a)[i] == Folded(b)[i];
      }
    }
  }

  // ----- Looking values up -----

  /** `_value_at`: a wildcard, a missing key or a missing item yields nothing. */
  function ValueAt(doc: Json, segments: seq<Segment>): Option<Json>
    decreases |segments|
  {
    if segments == [] then Some(doc)
    else
      match segments[0]
      case Wild => None
      case Index(digits) =>
        if doc.Array? && DigitsValue(digits) < |doc.items| then ValueAt(doc.items[DigitsValue(digits)], segments[1..]) else None
      case Key(name) =>
        if doc.Object? && name in doc.members then ValueAt(doc.members[name], segments[1..]) else None
  }

  method LookUp(doc: Json, path: string) returns (value: Option<Json>)
    ensures value == ValueAt(doc, Segments(path))
  {
    var segments := PathSegments(path);
    var cursor := doc;
    for i := 0 to |segments|
      invariant ValueAt(doc, segments) == ValueAt(cursor, segments[i..])
    {
      assert segments[i..][1..] == segments[i + 1..];
      match segments[i] {
        case Wild => return None;
        case Index(digits) =>
          var position := DigitsValue(digits);
          if !cursor.Array? || position >= |cursor.items| {
            return None;
          }
          cursor := cursor.items[position];
        case Key(name) =>
          if !cursor.Object? || name !in cursor.members {
            return None;
          }
          cursor := cursor.members[name];
      }
    }
    return Some(cursor);
  }

  // ----- The leaves of a document -----

  predicate IsLeaf(doc: Json, place: Place) {
    At(doc, place).Some? && At(doc, place).value.Leaf?
  }

  predicate NamedPlace(place: Place) {
    forall i :: 0 <= i < |place| && place[i].Field? ==> IsName(place[i].name)
  }

  /** Every key of the document is an identifier. */
  ghost predicate NamedKeys(doc: Json) {
    forall place :: At(doc, place).Some? ==> NamedPlace(place)
  }

  /** Print and parse undo each other: looking up the printed path of a place whose keys are
      identifiers yields what is at that place. */
  lemma LookupUndoesPrint(doc: Json, place: Place)
    requires NamedPlace(place)
    ensures ValueAt(doc, Segments(Show(PathOf(place)))) == At(doc, place)
  {
    forall i | 0 <= i < |place| && PathOf(place)[i].Key?
      ensures IsName(PathOf(place)[i].name)
    {
      assert PathOf(place)[i] == SegmentOf(place[i]);
    }
    SplitUndoesShow(PathOf(place));
    ConcreteLookup(doc, place);
  }

  lemma {:induction false} ConcreteLookup(doc: Json, place: Place)
    ensures ValueAt(doc, PathOf(place)) == At(doc, place)
    decreases |place|
  {
    if place != [] {
      assert PathOf(place)[0] == SegmentOf(place[0]);
      assert PathOf(place)[1..] == PathOf(place[1..]);
      if place[0].Item? {
        DecimalReadsBack(place[0].index);
      }
      var child := Child(doc, place[0]);
      if child.Some? {
        ConcreteLookup(child.value, place[1..]);
      }
    }
  }

  predicate DistinctPlaces(places: seq<Place>) {
    forall i, j :: 0 <= i < j < |places| ==> places[i] != places[j]
  }

  function Below(step: Step, places: seq<Place>): (r: seq<Place>)
    ensures |r| == |places|
  {
    seq(|places|, i requires 0 <= i < |places| => [step] + places[i])
  }

  /** The printed paths of a list of places, under a prefix already printed. */
  function Printed(prefix: string, places: seq<Place>): (r: seq<string>)
    ensures |r| == |places|
  {
    seq(|places|, i requires 0 <= i < |places| => prefix + ShowAll(PathOf(places[i])))
  }

  lemma ShownBelow(step: Step, place: Place)
    ensures ShowAll(PathOf([step] + place)) == ShowSegment(SegmentOf(step)) + ShowAll(PathOf(place))
  {
    var path := PathOf([step] + place);
    assert ([step] + place)[0] == step;
    assert path[0] == SegmentOf(step);
    assert path[1..] == PathOf(place);
  }

  lemma PrintedBelow(prefix: string, step: Step, places: seq<Place>)
    ensures Printed(prefix, Below(step, places)) == Printed(prefix + ShowSegment(SegmentOf(step)), places)
  {
    hide ShowAll, PathOf, ShowSegment, SegmentOf;
    var shown := ShowSegment(SegmentOf(step));
    forall i | 0 <= i < |places|
      ensures Printed(prefix, Below(step, places))[i] == Printed(prefix + shown, places)[i]
    {
      ShownBelow(step, places[i]);
      assert prefix + (shown + ShowAll(PathOf(places[i]))) == prefix + shown + ShowAll(PathOf(places[i]));
    }
  }

  predicate IsAt(doc: Json, wanted: Json -> bool, place: Place) {
    At(doc, place).Some? && wanted(At(doc, place).value)
  }

  /** The places of a document whose first step is in a set and that hold what is wanted. */
  ghost predicate PlacesUnder(doc: Json, wanted: Json -> bool, steps: set<Step>, places: seq<Place>) {
    && DistinctPlaces(places)
    && forall p: Place :: p in places <==> p != [] && p[0] in steps && IsAt(doc, wanted, p)
  }

  lemma BelowMembers(step: Step, places: seq<Place>, p: Place)
    ensures p in Below(step, places) <==> p != [] && p[0] == step && p[1..] in places
    ensures DistinctPlaces(places) ==> DistinctPlaces(Below(step, places))
  {
    var under := Below(step, places);
    forall i | 0 <= i < |places|
      ensures under[i] != [] && under[i][0] == step && under[i][1..] == places[i]
    {
      assert ([step] + places[i])[1..] == places[i];
    }
    if p != [] && p[0] == step && p[1..] in places {
      var i :| 0 <= i < |places| && places[i] == p[1..];
      assert under[i] == p;
    }
    if DistinctPlaces(places) {
      forall i, j | 0 <= i < j < |under|
        ensures under[i] != under[j]
      {
        assert under[i][1..] != under[j][1..];
      }
    }
  }

  /** Lists of different places, one after the other. */
  lemma ConcatIsDistinct(a: seq<Place>, b: seq<Place>)
    requires DistinctPlaces(a) && DistinctPlaces(b) && forall p :: p in a ==> p !in b
    ensures DistinctPlaces(a + b)
  {
    forall i, j | 0 <= i < j < |a + b|
      ensures (a + b)[i] != (a + b)[j]
    {
      if i < |a| <= j {
        assert a[i] in a && b[j - |a|] in b;
      }
    }
  }

  /** One more child visited: its places, moved below its step, complete the list. */
  lemma MorePlaces(doc: Json, wanted: Json -> bool, steps: set<Step>, places: seq<Place>, step: Step, below: seq<Place>)
    requires PlacesUnder(doc, wanted, steps, places) && step !in steps && Child(doc, step).Some?
    requires DistinctPlaces(below) && forall p: Place :: p in below <==> IsAt(Child(doc, step).value, wanted, p)
    ensures PlacesUnder(doc, wanted, steps + {step}, places + Below(step, below))
  {
    BelowMembers(step, below, []);
    forall p: Place
      ensures p in places + Below(step, below) <==> p != [] && p[0] in steps + {step} && IsAt(doc, wanted, p)
      ensures p in places ==> p !in Below(step, below)
    {
      BelowMembers(step, below, p);
    }
    ConcatIsDistinct(places, Below(step, below));
  }

  /** The paths are those of every leaf, each leaf once, printed under the prefix. */
  ghost predicate ListsLeaves(doc: Json, prefix: string, paths: seq<string>, places: seq<Place>) {
    paths == Printed(prefix, places) && DistinctPlaces(places) && forall p: Place :: p in places <==> IsLeaf(doc, p)
  }

  /** `_leaf_paths`, in whatever order the members of an object come. */
  method LeafPaths(doc: Json, prefix: string) returns (paths: seq<string>)
    ensures exists places :: ListsLeaves(doc, prefix, paths, places)
    decreases doc
  {
    hide Decimal;
    ghost var leaf: Json -> bool := (d: Json) => d.Leaf?;
    ghost var places: seq<Place> := [];
    paths := [];
    ghost var done: set<Step> := {};
    match doc {
      case Object(members) =>
        var remaining := members.Keys;
        while remaining != {}
          invariant remaining <= members.Keys
          invariant done == set name | name in members.Keys - remaining :: Field(name)
          invariant PlacesUnder(doc, leaf, done, places)
          invariant paths == Printed(prefix, places)
        {
          var name :| name in remaining;
          var more := LeafPaths(members[name], prefix + "." + name);
          ghost var below :| ListsLeaves(members[name], prefix + "." + name, more, below);
          MorePlaces(doc, leaf, done, places, Field(name), below);
          PrintedBelow(prefix, Field(name), below);
          assert prefix + ShowSegment(SegmentOf(Field(name))) == prefix + "." + name;
          PrintedConcat(prefix, places, Below(Field(name), below));
          paths, places := paths + more, places + Below(Field(name), below);
          remaining, done := remaining - {name}, done + {Field(name)};
        }
        assert forall p: Place :: p != [] && IsLeaf(doc, p) ==> Child(doc, p[0]).Some?;
      case Array(items) =>
        for i := 0 to |items|
          invariant done == set k | 0 <= k < i :: Item(k)
          invariant PlacesUnder(doc, leaf, done, places)
          invariant paths == Printed(prefix, places)
        {
          var more := LeafPaths(items[i], prefix + "[" + Decimal(i) + "]");
          ghost var below :| ListsLeaves(items[i], prefix + "[" + Decimal(i) + "]", more, below);
          MorePlaces(doc, leaf, done, places, Item(i), below);
          PrintedBelow(prefix, Item(i), below);
          assert prefix + ShowSegment(SegmentOf(Item(i))) == prefix + "[" + Decimal(i) + "]";
          PrintedConcat(prefix, places, Below(Item(i), below));
          paths, places := paths + more, places + Below(Item(i), below);
          done := done + {Item(i)};
        }
        assert forall p: Place :: p != [] && IsLeaf(doc, p) ==> Child(doc, p[0]).Some?;
      case Leaf(atom) =>
        paths, places := [prefix], [[]];
        assert PathOf([]) == [] && prefix + ShowAll([]) == prefix;
        assert Printed(prefix, places)[0] == prefix;
        assert forall p: Place :: p != [] ==> !IsLeaf(doc, p);
        assert IsLeaf(doc, []);
    }
    assert ListsLeaves(doc, prefix, paths, places);
  }

  lemma PrintedConcat(prefix: string, a: seq<Place>, b: seq<Place>)
    ensures Printed(prefix, a + b) == Printed(prefix, a) + Printed(prefix, b)
  {
  }
}
