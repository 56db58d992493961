/** The path part of artifact URI normalisation (`contracts/models.py`). Escapes must decode to
    well-formed UTF-8. For the checks on the decoded path an escape is the character of its byte,
    which is exact for the ASCII characters they look for. */
module ArtifactPaths {
  import opened Wrappers
  import opened Identifiers
  import opened Texts

  datatype Problem = NotAbsolute | BadEscape | BadEncoding | ControlCharacter | Backslash | Traversal

  // ----- Percent escapes -----

  predicate IsHex(c: char) {
    IsDigit(c) || 'A' <= c <= 'F' || 'a' <= c <= 'f'
  }

  function HexValue(c: char): (n: nat)
    requires IsHex(c)
    ensures n < 16
  {
    if IsDigit(c) then DigitValue(c) else if c <= 'F' then c as int - 'A' as int + 10 else c as int - 'a' as int + 10
  }

  /** Every percent sign starts an escape of two hexadecimal digits. */
  predicate WellEscaped(s: string) {
    forall i :: 0 <= i < |s| && s[i] == '%' ==> i + 2 < |s| && IsHex(s[i + 1]) && IsHex(s[i + 2])
  }

  predicate StartsEscape(s: string) {
    |s| >= 3 && s[0] == '%' && IsHex(s[1]) && IsHex(s[2])
  }

  /** The character a nonempty text starts with once decoded. */
  function Decoded(s: string): char
    requires s != []
  {
    if StartsEscape(s) then (16 * HexValue(s[1]) + HexValue(s[2])) as char else s[0]
  }

  /** `unquote`: an escape becomes its byte, and a stray percent sign stays. */
  function Unquote(s: string): string {
    if s == [] then "" else [Decoded(s)] + Unquote(s[if StartsEscape(s) then 3 else 1..])
  }

  lemma {:induction false} UnquoteConcat(a: string, b: string)
    requires WellEscaped(a)
    ensures Unquote(a + b) == Unquote(a) + Unquote(b)
    decreases |a|
  {
    if a == [] {
      assert a + b == b;
    } else {
      var n := if a[0] == '%' then 3 else 1;
      assert StartsEscape(a) == StartsEscape(a + b) == (a[0] == '%') && Decoded(a) == Decoded(a + b);
      hide WellEscaped, Decoded, StartsEscape;
      WellEscapedTail(a, n);
      assert (a + b)[n..] == a[n..] + b;
      UnquoteConcat(a[n..], b);
    }
  }

  lemma WellEscapedTail(s: string, n: nat)
    requires n <= |s| && WellEscaped(s)
    ensures WellEscaped(s[n..])
  {
  }

  // ----- UTF-8 -----

  /** What a character outside ASCII stands for between the bytes: it ends whatever they encode. */
  const FOREIGN := 256
  const SLASH := 0x2F

  function UnitOf(s: string): int
    requires s != []
  {
    if StartsEscape(s) then 16 * HexValue(s[1]) + HexValue(s[2])
    else if s[0] as int < 0x80 then s[0] as int else FOREIGN
  }

  /** The bytes a path decodes to. */
  function Units(s: string): seq<int> {
    if s == [] then [] else [UnitOf(s)] + Units(s[if StartsEscape(s) then 3 else 1..])
  }

  predicate IsContinuation(b: int) {
    0x80 <= b <= 0xBF
  }

  /** How many bytes must follow a leading byte; none, if it leads nothing. */
  function Following(lead: int): (n: nat)
    ensures n <= 3
  {
    if 0xC2 <= lead <= 0xDF then 1 else if 0xE0 <= lead <= 0xEF then 2 else if 0xF0 <= lead <= 0xF4 then 3 else 0
  }

  /** Neither overlong, nor a surrogate, nor beyond the last code point. */
  predicate SecondFits(lead: int, b: int) {
    if lead == 0xE0 then 0xA0 <= b <= 0xBF
    else if lead == 0xED then 0x80 <= b <= 0x9F
    else if lead == 0xF0 then 0x90 <= b <= 0xBF
    else if lead == 0xF4 then 0x80 <= b <= 0x8F
    else IsContinuation(b)
  }

  predicate LeadsCharacter(u: seq<int>)
    requires u != []
  {
    var n := Following(u[0]);
    n > 0 && |u| > n && SecondFits(u[0], u[1]) && forall i :: 2 <= i <= n ==> IsContinuation(u[i])
  }

  predicate WellFormed(u: seq<int>) {
    u == [] ||
    if u[0] < 0x80 || u[0] == FOREIGN then WellFormed(u[1..])
    else LeadsCharacter(u) && WellFormed(u[Following(u[0]) + 1..])
  }

  /** A slash is never part of a longer character. */
  lemma {:induction false} WellFormedConcat(a: seq<int>, b: seq<int>)
    ensures WellFormed(a + [SLASH] + b) <==> WellFormed(a) && WellFormed(b)
    decreases |a|
  {
    var all := a + [SLASH] + b;
    if a == [] {
      assert all == [SLASH] + b && all[1..] == b;
    } else if a[0] < 0x80 || a[0] == FOREIGN {
      assert all[1..] == a[1..] + [SLASH] + b;
      WellFormedConcat(a[1..], b);
    } else {
      var n := Following(a[0]);
      assert all[0] == a[0];
      if n > 0 && |a| > n {
        assert forall i :: 0 <= i <= n ==> all[i] == a[i];
        assert all[n + 1..] == a[n + 1..] + [SLASH] + b;
        WellFormedConcat(a[n + 1..], b);
      } else if n > 0 {
        assert all[|a|] == SLASH && !IsContinuation(all[|a|]) && !SecondFits(a[0], SLASH);
      }
    }
  }

  lemma {:induction false} UnitsConcat(a: string, b: string)
    requires WellEscaped(a)
    ensures Units(a + b) == Units(a) + Units(b)
    decreases |a|
  {
    if a == [] {
      assert a + b == b;
    } else {
      var n := if a[0] == '%' then 3 else 1;
      assert StartsEscape(a) == StartsEscape(a + b) == (a[0] == '%') && UnitOf(a) == UnitOf(a + b);
      hide WellEscaped, UnitOf, StartsEscape;
      WellEscapedTail(a, n);
      assert (a + b)[n..] == a[n..] + b;
      UnitsConcat(a[n..], b);
    }
  }

  predicate Encoded(s: string) {
    WellFormed(Units(s))
  }

  lemma EncodedConcat(a: string, b: string)
    requires WellEscaped(a)
    ensures Encoded(a + "/" + b) <==> Encoded(a) && Encoded(b)
  {
    hide WellFormed, WellEscaped;
    UnitsConcat(a, "/" + b);
    assert a + ("/" + b) == a + "/" + b;
    assert ("/" + b)[1..] == b && Units("/" + b) == [SLASH] + Units(b);
    assert Units(a) + ([SLASH] + Units(b)) == Units(a) + [SLASH] + Units(b);
    WellFormedConcat(Units(a), Units(b));
  }

  // ----- What a path may hold -----

  predicate IsControl(c: char) {
    c < ' ' || c == '\U{7f}'
  }

  predicate Printing(s: string) {
    forall i :: 0 <= i < |s| ==> !IsControl(s[i]) && s[i] != '\\'
  }

  predicate NoTraversal(segments: seq<string>) {
    forall i :: 0 <= i < |segments| ==> segments[i] != "." && segments[i] != ".."
  }

  /** Everything the checks ask of a path besides that it is absolute. */
  predicate Clean(s: string) {
    WellEscaped(s) && Encoded(s) && Printing(Unquote(s)) && NoTraversal(Split(Unquote(s), '/'))
  }

  function NonEmpty(segments: seq<string>): seq<string> {
    if segments == [] then [] else (if segments[0] != "" then [segments[0]] else []) + NonEmpty(segments[1..])
  }

  /** The path with its empty segments dropped. */
  function Canonical(path: string): string {
    var segments := NonEmpty(Split(path, '/'));
    if segments == [] then "/" else Joined(segments, '/')
  }

  predicate Absolute(path: string) {
    path != [] && path[0] == '/'
  }

  ghost predicate Explains(path: string, problem: Problem) {
    match problem
    case NotAbsolute => !Absolute(path)
    case BadEscape => Absolute(path) && !WellEscaped(path)
    case BadEncoding => Absolute(path) && WellEscaped(path) && !Encoded(path)
    case ControlCharacter => Absolute(path) && WellEscaped(path) && Encoded(path) && exists i :: 0 <= i < |Unquote(path)| && IsControl(Unquote(path)[i])
    case Backslash =>
      Absolute(path) && WellEscaped(path) && Encoded(path) && '\\' in Unquote(path) && forall i :: 0 <= i < |Unquote(path)| ==> !IsControl(Unquote(path)[i])
    case Traversal => Absolute(path) && WellEscaped(path) && Encoded(path) && Printing(Unquote(path)) && !NoTraversal(Split(Unquote(path), '/'))
  }

  // ----- Clean segment by segment -----

  lemma WellEscapedConcat(a: string, b: string)
    ensures WellEscaped(a + "/" + b) <==> WellEscaped(a) && WellEscaped(b)
  {
    var s := a + "/" + b;
    if WellEscaped(s) {
      WellEscapedTail(s, |a| + 1);
      assert s[|a| + 1..] == b;
      forall i | 0 <= i < |a| && a[i] == '%'
        ensures i + 2 < |a| && IsHex(a[i + 1]) && IsHex(a[i + 2])
      {
        assert s[i] == '%' && s[|a|] == '/';
        assert IsHex(s[i + 1]) && IsHex(s[i + 2]);
        assert i + 1 < |a| ==> s[i + 1] == a[i + 1];
        assert i + 2 < |a| ==> s[i + 2] == a[i + 2];
      }
    }
    if WellEscaped(a) && WellEscaped(b) {
      forall i | 0 <= i < |s| && s[i] == '%'
        ensures i + 2 < |s| && IsHex(s[i + 1]) && IsHex(s[i + 2])
      {
        if i > |a| {
          assert b[i - |a| - 1] == '%';
        }
      }
    }
  }

  lemma {:induction false} SplitConcat(a: string, b: string)
    ensures Split(a + "/" + b, '/') == Split(a, '/') + Split(b, '/')
    decreases |a|
  {
    hide Span, Split;
    SplitUnfolds(a, '/');
    var n := Span(a, '/');
    if n == |a| {
      SplitAtFirst(a, b, '/');
      assert a + "/" + b == a + (['/'] + b);
    } else {
      var rest := a[n + 1..];
      SplitConcat(rest, b);
      SplitAtFirst(a[..n], rest + "/" + b, '/');
      assert a == a[..n] + ['/'] + rest;
      assert a + "/" + b == a[..n] + (['/'] + (rest + "/" + b));
    }
  }

  /** A path is clean exactly when each side of a slash is. */
  lemma CleanConcat(a: string, b: string)
    ensures Clean(a + "/" + b) <==> Clean(a) && Clean(b)
  {
    hide Split, WellEscaped, Unquote, Encoded;
    WellEscapedConcat(a, b);
    if WellEscaped(a) && WellEscaped(b) {
      EncodedConcat(a, b);
      UnquoteConcat(a, "/" + b);
      assert a + ("/" + b) == a + "/" + b;
      UnquotedSlash(b);
      var x, y := Unquote(a), Unquote(b);
      SplitConcat(x, y);
      assert Unquote(a + "/" + b) == x + "/" + y;
      PrintingConcat(x, y);
      NoTraversalConcat(Split(x, '/'), Split(y, '/'));
    }
  }

  lemma UnquotedSlash(b: string)
    ensures Unquote("/" + b) == "/" + Unquote(b)
  {
  }

  lemma PrintingConcat(x: string, y: string)
    ensures Printing(x + "/" + y) <==> Printing(x) && Printing(y)
  {
    var s := x + "/" + y;
    assert forall i :: 0 <= i < |x| ==> x[i] == s[i];
    assert forall i :: 0 <= i < |y| ==> y[i] == s[|x| + 1 + i];
  }

  lemma NoTraversalConcat(x: seq<string>, y: seq<string>)
    ensures NoTraversal(x + y) <==> NoTraversal(x) && NoTraversal(y)
  {
    assert forall i :: 0 <= i < |x| ==> x[i] == (x + y)[i];
    assert forall i :: 0 <= i < |y| ==> y[i] == (x + y)[|x| + i];
  }

  predicate AllClean(segments: seq<string>) {
    forall i :: 0 <= i < |segments| ==> Clean(segments[i])
  }

  lemma {:induction false} CleanJoined(head: string, parts: seq<string>)
    ensures Clean(head + Joined(parts, '/')) <==> Clean(head) && AllClean(parts)
    decreases |parts|
  {
    hide Clean;
    if parts == [] {
      assert head + Joined(parts, '/') == head;
    } else {
      var rest := parts[0] + Joined(parts[1..], '/');
      assert head + Joined(parts, '/') == head + "/" + rest;
      CleanConcat(head, rest);
      CleanJoined(parts[0], parts[1..]);
      assert parts == [parts[0]] + parts[1..];
    }
  }

  lemma {:induction false} NonEmptyKeeps(segments: seq<string>)
    ensures var kept := NonEmpty(segments);
            && (forall i :: 0 <= i < |kept| ==> kept[i] != "" && kept[i] in segments)
            && NonEmpty(kept) == kept && NonEmpty([""] + kept) == kept
  {
    if segments != [] {
      NonEmptyKeeps(segments[1..]);
    }
    var kept := NonEmpty(segments);
    assert ([""] + kept)[1..] == kept;
  }

  // ----- Normalisation is canonical -----

  lemma SplitOfCanonical(path: string)
    ensures Split(Canonical(path), '/') == if NonEmpty(Split(path, '/')) == [] then ["", ""] else [""] + NonEmpty(Split(path, '/'))
  {
    hide Split;
    var kept := NonEmpty(Split(path, '/'));
    NonEmptyKeeps(Split(path, '/'));
    SplitPartsAreFree(path, '/');
    if kept == [] {
      SplitUndoesJoin("", [""], '/');
      assert Joined([""], '/') == "/" && "" + "/" == "/";
    } else {
      SplitUndoesJoin("", kept, '/');
      assert "" + Joined(kept, '/') == Joined(kept, '/');
    }
  }

  /** Normalising keeps the segments that are not empty, in order, and drops the others; the
      result is absolute, has one slash before each segment and none at its end. */
  lemma CanonicalKeepsSegments(path: string)
    ensures var c := Canonical(path);
            && Absolute(c)
            && NonEmpty(Split(c, '/')) == NonEmpty(Split(path, '/'))
            && (forall i :: 0 < i < |c| ==> !(c[i - 1] == '/' && c[i] == '/'))
            && (c[|c| - 1] == '/' ==> c == "/")
  {
    hide Split;
    SplitOfCanonical(path);
    NonEmptyKeeps(Split(path, '/'));
    SplitPartsAreFree(path, '/');
    var kept := NonEmpty(Split(path, '/'));
    if kept == [] {
      assert NonEmpty(["", ""]) == [] by { assert ["", ""][1..] == [""] && [""][1..] == []; }
    } else {
      SlashesStandAlone(kept);
    }
  }

  lemma {:induction false} SlashesStandAlone(parts: seq<string>)
    requires parts != [] && forall i :: 0 <= i < |parts| ==> parts[i] != "" && Free(parts[i], '/')
    ensures var s := Joined(parts, '/');
            && |s| >= 2 && s[0] == '/' && s[|s| - 1] != '/'
            && forall i :: 0 < i < |s| ==> !(s[i - 1] == '/' && s[i] == '/')
  {
    var first, rest := parts[0], Joined(parts[1..], '/');
    var s := Joined(parts, '/');
    assert s == ['/'] + first + rest;
    if parts[1..] != [] {
      SlashesStandAlone(parts[1..]);
    }
    forall i | 0 < i < |s|
      ensures !(s[i - 1] == '/' && s[i] == '/')
    {
      if i <= |first| {
        assert s[i] == first[i - 1];
      } else if i == |first| + 1 {
        assert s[i - 1] == first[i - 2];
      } else {
        assert s[i] == rest[i - |first| - 1] && s[i - 1] == rest[i - |first| - 2];
      }
    }
  }

  lemma CanonicalIsClean(path: string)
    requires Clean(path)
    ensures Clean(Canonical(path))
  {
    hide Clean, Split;
    var segments := Split(path, '/');
    var kept := NonEmpty(segments);
    NonEmptyKeeps(segments);
    JoinUndoesSplit(path, '/');
    CleanJoined(segments[0], segments[1..]);
    assert segments == [segments[0]] + segments[1..];
    EmptyIsClean();
    var parts := if kept == [] then [""] else kept;
    CleanJoined("", parts);
    assert Joined([""], '/') == "/";
    assert "" + Joined(parts, '/') == Joined(parts, '/');
  }

  /** Normalisation is idempotent: what it returns passes every check again and is returned
      unchanged, so no escape in it decodes to a traversal segment. */
  lemma NormalisationIsIdempotent(path: string)
    requires Absolute(path) && Clean(path)
    ensures var c := Canonical(path); Absolute(c) && Clean(c) && Canonical(c) == c
  {
    CanonicalKeepsSegments(path);
    CanonicalIsClean(path);
    hide Clean, Split, Absolute;
  }

  lemma EmptyIsClean()
    ensures Clean("")
  {
  }

  // ----- The checks and the normalisation as they run -----

  /** `"/".join`. */
  function Plain(parts: seq<string>): string {
    if parts == [] then "" else parts[0] + Joined(parts[1..], '/')
  }

  /** `posixpath.normpath`: exactly two leading slashes are kept. */
  method PosixNormal(path: string) returns (r: string)
    ensures Absolute(path) && NoTraversal(Split(path, '/')) ==> r == Canonical(path) || r == "/" + Canonical(path)
  {
    hide Split;
    var rooted := Absolute(path);
    var doubled := rooted && |path| >= 2 && path[1] == '/' && (|path| == 2 || path[2] != '/');
    var segments := Split(path, '/');
    var kept: seq<string> := [];
    for i := 0 to |segments|
      invariant rooted && NoTraversal(segments) ==> kept == NonEmpty(segments[..i])
    {
      var segment := segments[i];
      NonEmptyGrows(segments, i);
      if segment == "" || segment == "." {
      } else if segment != ".." || (!rooted && kept == []) || (kept != [] && kept[|kept| - 1] == "..") {
        kept := kept + [segment];
      } else if kept != [] {
        kept := kept[..|kept| - 1];
      }
    }
    assert segments[..|segments|] == segments;
    r := (if doubled then "//" else if rooted then "/" else "") + Plain(kept);
    if kept != [] {
      assert "/" + Plain(kept) == Joined(kept, '/');
      assert "//" + Plain(kept) == "/" + ("/" + Plain(kept));
    }
    if r == "" {
      r := ".";
    }
  }

  lemma {:induction false} NonEmptyConcat(a: seq<string>, b: seq<string>)
    ensures NonEmpty(a + b) == NonEmpty(a) + NonEmpty(b)
  {
    if a == [] {
      assert a + b == b;
    } else {
      assert (a + b)[1..] == a[1..] + b;
      NonEmptyConcat(a[1..], b);
    }
  }

  lemma NonEmptyGrows(segments: seq<string>, i: nat)
    requires i < |segments|
    ensures NonEmpty(segments[..i + 1]) == NonEmpty(segments[..i]) + if segments[i] != "" then [segments[i]] else []
  {
    NonEmptyConcat(segments[..i], [segments[i]]);
    assert segments[..i + 1] == segments[..i] + [segments[i]];
    assert [segments[i]][1..] == [];
  }

  /** A clean path has no traversal segment before decoding either. */
  lemma CleanHasNoRawTraversal(path: string)
    requires Clean(path)
    ensures NoTraversal(Split(path, '/'))
  {
    hide Clean, Split;
    var segments := Split(path, '/');
    JoinUndoesSplit(path, '/');
    CleanJoined(segments[0], segments[1..]);
    assert segments == [segments[0]] + segments[1..];
    DotsAreNotClean();
  }

  lemma DotsAreNotClean()
    ensures !Clean(".") && !Clean("..")
  {
    assert Unquote("") == "" && Unquote(".") == "." && Unquote("..") == ".." by {
      assert "."[1..] == "" && ".."[1..] == ".";
    }
    FreeIsOnePart(".", '/');
    FreeIsOnePart("..", '/');
    assert ["."][0] == "." && [".."][0] == "..";
  }

  /** The path part of `_normalize_artifact_uri`. */
  method NormalizePath(path: string) returns (r: Result<string, Problem>)
    ensures r.Ok? <==> Absolute(path) && Clean(path)
    ensures r.Ok? ==> r.value == Canonical(path)
    ensures r.Err? ==> Explains(path, r.error)
  {
    hide Split, Unquote, Canonical, Encoded;
    if !Absolute(path) {
      return Err(NotAbsolute);
    }
    if !WellEscaped(path) {
      return Err(BadEscape);
    }
    if !Encoded(path) {
      return Err(BadEncoding);
    }
    var decoded := Unquote(path);
    if exists i :: 0 <= i < |decoded| && IsControl(decoded[i]) {
      return Err(ControlCharacter);
    }
    if '\\' in decoded {
      return Err(Backslash);
    }
    if !NoTraversal(Split(decoded, '/')) {
      return Err(Traversal);
    }
    CleanHasNoRawTraversal(path);
    CanonicalKeepsSegments(path);
    var normalized := PosixNormal(path);
    if normalized == "." {
      normalized := "/";
    }
    while |normalized| >= 2 && normalized[0] == '/' && normalized[1] == '/'
      invariant normalized == Canonical(path) || normalized == "/" + Canonical(path)
    {
      assert ("/" + Canonical(path))[1..] == Canonical(path);
      normalized := normalized[1..];
    }
    return Ok(normalized);
  }
}
