/** What the escapes of a path stand for: however a character is spelled, literally or as an escape
    in upper or lower case, the checks see the character; and the bytes that escapes spell are
    accepted exactly if they are UTF-8 (section 3 of RFC 3629). */
module PathSpellings {
  import opened Wrappers
  import opened Identifiers
  import opened Texts
  import opened ArtifactPaths

  // ----- Spelling a character -----

  function HexDigit(n: nat, upper: bool): char
    requires n < 16
  {
    if upper then "0123456789ABCDEF"[n] else "0123456789abcdef"[n]
  }

  datatype Spelling = Literal | Escape(upperHigh: bool, upperLow: bool)

  /** A literal percent sign would start an escape, and an escape stands for one byte. */
  predicate Spells(c: char, how: Spelling) {
    if how.Literal? then c != '%' else c as int < 256
  }

  function Spell(c: char, how: Spelling): string
    requires Spells(c, how)
  {
    if how.Literal? then [c] else "%" + [HexDigit(c as int / 16, how.upperHigh)] + [HexDigit(c as int % 16, how.upperLow)]
  }

  predicate SpellsAll(text: string, how: seq<Spelling>) {
    |how| == |text| && forall i :: 0 <= i < |text| ==> Spells(text[i], how[i])
  }

  function SpellAll(text: string, how: seq<Spelling>): string
    requires SpellsAll(text, how)
  {
    if text == [] then "" else Spell(text[0], how[0]) + SpellAll(text[1..], how[1..])
  }

  lemma HexDigitReadsBack(n: nat, upper: bool)
    requires n < 16
    ensures IsHex(HexDigit(n, upper)) && HexValue(HexDigit(n, upper)) == n
  {
  }

  /** One escape is read as the byte it spells, in any case of its digits. */
  lemma SpelledCharacter(c: char, how: Spelling, rest: string)
    requires Spells(c, how)
    ensures var s := Spell(c, how) + rest;
            && WellEscaped(Spell(c, how))
            && Unquote(s) == [c] + Unquote(rest)
            && Units(s) == [if how.Literal? && c as int >= 0x80 then FOREIGN else c as int] + Units(rest)
  {
    hide HexDigit, HexValue;
    var s := Spell(c, how) + rest;
    if how.Escape? {
      HexDigitReadsBack(c as int / 16, how.upperHigh);
      HexDigitReadsBack(c as int % 16, how.upperLow);
      assert s[0] == '%' && s[1] == HexDigit(c as int / 16, how.upperHigh) && s[2] == HexDigit(c as int % 16, how.upperLow);
      assert s[3..] == rest;
      assert Decoded(s) == c && UnitOf(s) == c as int;
    } else {
      assert s[1..] == rest;
    }
  }

  /** Escaping any characters of a text and decoding gives the text back. */
  lemma {:induction false} UnquoteUndoesSpelling(text: string, how: seq<Spelling>)
    requires SpellsAll(text, how)
    ensures WellEscaped(SpellAll(text, how))
    ensures Unquote(SpellAll(text, how)) == text
  {
    if text != [] {
      UnquoteUndoesSpelling(text[1..], how[1..]);
      SpelledCharacter(text[0], how[0], SpellAll(text[1..], how[1..]));
      WellEscapedTogether(Spell(text[0], how[0]), SpellAll(text[1..], how[1..]));
    }
  }

  lemma WellEscapedTogether(a: string, b: string)
    requires WellEscaped(a) && WellEscaped(b)
    ensures WellEscaped(a + b)
  {
    forall i | 0 <= i < |a + b| && (a + b)[i] == '%'
      ensures i + 2 < |a + b| && IsHex((a + b)[i + 1]) && IsHex((a + b)[i + 2])
    {
      if i >= |a| {
        assert b[i - |a|] == '%';
      }
    }
  }

  /** Every path without a bad escape spells some text. */
  lemma {:induction false} PathsAreSpellings(path: string) returns (text: string, how: seq<Spelling>)
    requires WellEscaped(path)
    ensures SpellsAll(text, how) && SpellAll(text, how) == path
    decreases |path|
  {
    if path == "" {
      text, how := "", [];
    } else if path[0] == '%' {
      var c, spelling := EscapeIsSpelling(path[1], path[2]);
      WellEscapedTail(path, 3);
      var rest, more := PathsAreSpellings(path[3..]);
      text, how := [c] + rest, [spelling] + more;
      assert text[1..] == rest && how[1..] == more;
      assert path == ['%'] + [path[1]] + [path[2]] + path[3..];
    } else {
      WellEscapedTail(path, 1);
      var rest, more := PathsAreSpellings(path[1..]);
      text, how := [path[0]] + rest, [Literal] + more;
      assert text[1..] == rest && how[1..] == more;
      assert path == [path[0]] + path[1..];
    }
  }

  lemma EscapeIsSpelling(high: char, low: char) returns (c: char, how: Spelling)
    requires IsHex(high) && IsHex(low)
    ensures how.Escape? && Spells(c, how) && Spell(c, how) == "%" + [high] + [low]
  {
    var h, l := HexValue(high), HexValue(low);
    c, how := (16 * h + l) as char, Escape(high <= 'F', low <= 'F');
    assert c as int / 16 == h && c as int % 16 == l;
    DigitIsShown(high);
    DigitIsShown(low);
  }

  lemma DigitIsShown(c: char)
    requires IsHex(c)
    ensures HexDigit(HexValue(c), c <= 'F') == c
  {
  }

  // ----- What no spelling hides -----

  /** Whatever way a text is spelled, the checks are about the text: no control character, no
      backslash and no segment of dots. */
  lemma ChecksSeeTheText(text: string, how: seq<Spelling>)
    requires SpellsAll(text, how)
    ensures Clean(SpellAll(text, how)) <==>
            && Encoded(SpellAll(text, how))
            && (forall i :: 0 <= i < |text| ==> text[i] as int >= 32 && text[i] as int != 127 && text[i] != '\\')
            && "." !in Split(text, '/') && ".." !in Split(text, '/')
  {
    UnquoteUndoesSpelling(text, how);
    PrintingIsPlain(text);
    hide Unquote, Encoded, WellEscaped, Split, SpellAll, Printing;
    var segments := Split(text, '/');
    assert NoTraversal(segments) <==> "." !in segments && ".." !in segments;
  }

  lemma PrintingIsPlain(text: string)
    ensures Printing(text) <==> forall i :: 0 <= i < |text| ==> text[i] as int >= 32 && text[i] as int != 127 && text[i] != '\\'
  {
    forall i | 0 <= i < |text|
      ensures IsControl(text[i]) <==> text[i] as int < 32 || text[i] as int == 127
    {
    }
  }

  /** A segment that reads `.` or `..`, in any mix of literal and escaped characters, is refused
      wherever it stands. */
  lemma SpelledDotsAreRefused(before: string, dots: string, how: seq<Spelling>, after: string)
    requires dots in {".", ".."} && SpellsAll(dots, how)
    ensures !Clean(before + "/" + SpellAll(dots, how)) && !Clean(before + "/" + SpellAll(dots, how) + "/" + after)
  {
    UnquoteUndoesSpelling(dots, how);
    FreeIsOnePart(dots, '/');
    assert Split(dots, '/')[0] == dots;
    hide Split;
    var segment := SpellAll(dots, how);
    assert !Clean(segment);
    hide Clean;
    CleanConcat(before, segment);
    CleanConcat(before + "/" + segment, after);
  }

  /** A control character or a backslash, literal or escaped, is refused wherever it stands. */
  lemma SpelledControlsAreRefused(before: string, c: char, how: Spelling, after: string)
    requires (c as int < 32 || c as int == 127 || c as int == 92) && Spells(c, how)
    ensures !Clean(before + Spell(c, how) + after)
  {
    var path, rest := before + Spell(c, how) + after, Spell(c, how) + after;
    assert path == before + rest;
    if WellEscaped(path) {
      EscapesEndBefore(before, rest);
      UnquoteConcat(before, rest);
      SpelledCharacter(c, how, after);
      assert Unquote(path)[|Unquote(before)|] == c;
    }
  }

  /** What stands before the start of an escape, or of any other character but a digit of one, has
      no escape open. */
  lemma EscapesEndBefore(a: string, b: string)
    requires WellEscaped(a + b) && b != [] && !IsHex(b[0])
    ensures WellEscaped(a)
  {
    var s := a + b;
    forall i | 0 <= i < |a| && a[i] == '%'
      ensures i + 2 < |a| && IsHex(a[i + 1]) && IsHex(a[i + 2])
    {
      assert s[i] == '%' && s[|a|] == b[0];
      assert IsHex(s[i + 1]) && IsHex(s[i + 2]);
      assert i + 1 < |a| ==> s[i + 1] == a[i + 1];
      assert i + 2 < |a| ==> s[i + 2] == a[i + 2];
    }
  }

  // ----- UTF-8 -----

  /** A code point that is not a surrogate, or a character outside ASCII that stands in the path
      as it is. */
  datatype Token = Scalar(code: nat) | Foreign

  predicate ValidToken(t: Token) {
    t.Scalar? ==> t.code < 0xD800 || 0xE000 <= t.code <= 0x10FFFF
  }

  predicate ValidTokens(tokens: seq<Token>) {
    forall i :: 0 <= i < |tokens| ==> ValidToken(tokens[i])
  }

  /** The bytes of a code point. */
  function Utf8(code: nat): seq<int> {
    if code < 0x80 then [code]
    else if code < 0x800 then [0xC0 + code / 0x40, 0x80 + code % 0x40]
    else if code < 0x1_0000 then [0xE0 + code / 0x1000, 0x80 + code / 0x40 % 0x40, 0x80 + code % 0x40]
    else [0xF0 + code / 0x4_0000, 0x80 + code / 0x1000 % 0x40, 0x80 + code / 0x40 % 0x40, 0x80 + code % 0x40]
  }

  function TokenUnits(t: Token): seq<int> {
    if t.Foreign? then [FOREIGN] else Utf8(t.code)
  }

  function Encoding(tokens: seq<Token>): seq<int> {
    if tokens == [] then [] else TokenUnits(tokens[0]) + Encoding(tokens[1..])
  }

  /** The code point that a leading byte and its continuation bytes stand for. */
  function CodeOf(u: seq<int>): int
    requires u != [] && |u| > Following(u[0])
  {
    var n := Following(u[0]);
    if n == 0 then u[0]
    else if n == 1 then (u[0] - 0xC0) * 0x40 + (u[1] - 0x80)
    else if n == 2 then (u[0] - 0xE0) * 0x1000 + (u[1] - 0x80) * 0x40 + (u[2] - 0x80)
    else (u[0] - 0xF0) * 0x4_0000 + (u[1] - 0x80) * 0x1000 + (u[2] - 0x80) * 0x40 + (u[3] - 0x80)
  }

  /** Six more bits: appending them and taking them off again. */
  lemma SixBits(high: int, low: int)
    requires 0 <= low < 0x40
    ensures (high * 0x40 + low) / 0x40 == high && (high * 0x40 + low) % 0x40 == low
  {
  }

  lemma TwoBytes(a: int, b: int)
    requires 2 <= a < 0x20 && 0 <= b < 0x40
    ensures var code := a * 0x40 + b; 0x80 <= code < 0x800 && Utf8(code) == [0xC0 + a, 0x80 + b]
  {
    SixBits(a, b);
  }

  lemma ThreeBytes(a: int, b: int, c: int)
    requires 0 <= a < 0x10 && 0 <= b < 0x40 && 0 <= c < 0x40 && (a == 0 ==> b >= 0x20)
    ensures var code := a * 0x1000 + b * 0x40 + c; 0x800 <= code < 0x1_0000 && Utf8(code) == [0xE0 + a, 0x80 + b, 0x80 + c]
  {
    var code := a * 0x1000 + b * 0x40 + c;
    SixBits(a * 0x40 + b, c);
    SixBits(a, b);
    assert code / 0x40 == a * 0x40 + b && code / 0x1000 == code / 0x40 / 0x40;
  }

  lemma FourBytes(a: int, b: int, c: int, d: int)
    requires 0 <= a <= 4 && 0 <= b < 0x40 && 0 <= c < 0x40 && 0 <= d < 0x40 && (a == 0 ==> b >= 0x10) && (a == 4 ==> b < 0x10)
    ensures var code := a * 0x4_0000 + b * 0x1000 + c * 0x40 + d;
            0x1_0000 <= code <= 0x10FFFF && Utf8(code) == [0xF0 + a, 0x80 + b, 0x80 + c, 0x80 + d]
  {
    var code := a * 0x4_0000 + b * 0x1000 + c * 0x40 + d;
    SixBits((a * 0x40 + b) * 0x40 + c, d);
    SixBits(a * 0x40 + b, c);
    SixBits(a, b);
    assert code / 0x40 == (a * 0x40 + b) * 0x40 + c;
    assert code / 0x1000 == code / 0x40 / 0x40 && code / 0x4_0000 == code / 0x1000 / 0x40;
  }

  lemma LeadIsUtf8(u: seq<int>)
    requires u != [] && u[0] >= 0 && (u[0] < 0x80 || LeadsCharacter(u))
    ensures var n := Following(u[0]);
            |u| > n && CodeOf(u) >= 0 && ValidToken(Scalar(CodeOf(u))) && Utf8(CodeOf(u)) == u[..n + 1]
  {
    hide Utf8;
    var n := Following(u[0]);
    if n == 0 {
      assert Utf8(u[0]) == [u[0]] by { OneByte(u[0]); }
    } else if n == 1 {
      TwoBytes(u[0] - 0xC0, u[1] - 0x80);
    } else if n == 2 {
      assert IsContinuation(u[2]);
      ThreeBytes(u[0] - 0xE0, u[1] - 0x80, u[2] - 0x80);
    } else {
      assert IsContinuation(u[2]) && IsContinuation(u[3]);
      FourBytes(u[0] - 0xF0, u[1] - 0x80, u[2] - 0x80, u[3] - 0x80);
    }
  }

  lemma OneByte(b: nat)
    requires b < 0x80
    ensures Utf8(b) == [b]
  {
  }

  lemma Utf8Leads(code: nat, rest: seq<int>)
    requires ValidToken(Scalar(code))
    ensures var u := Utf8(code) + rest;
            && Following(u[0]) == |Utf8(code)| - 1 && u[0] != FOREIGN
            && (if code < 0x80 then u[0] < 0x80 else u[0] >= 0x80 && LeadsCharacter(u))
  {
  }

  lemma {:induction false} EncodingIsWellFormed(tokens: seq<Token>)
    requires ValidTokens(tokens)
    ensures WellFormed(Encoding(tokens))
  {
    if tokens != [] {
      var rest := Encoding(tokens[1..]);
      EncodingIsWellFormed(tokens[1..]);
      var u := TokenUnits(tokens[0]) + rest;
      if tokens[0].Scalar? {
        Utf8Leads(tokens[0].code, rest);
        assert u[|Utf8(tokens[0].code)|..] == rest;
      } else {
        assert u[1..] == rest;
      }
    }
  }

  lemma {:induction false} WellFormedIsEncoding(u: seq<int>) returns (tokens: seq<Token>)
    requires WellFormed(u) && forall i :: 0 <= i < |u| ==> 0 <= u[i]
    ensures ValidTokens(tokens) && Encoding(tokens) == u
    decreases |u|
  {
    if u == [] {
      tokens := [];
    } else {
      var n := if u[0] == FOREIGN then 0 else Following(u[0]);
      var first := if u[0] == FOREIGN then Foreign else Scalar(CodeOf(u));
      if u[0] != FOREIGN {
        LeadIsUtf8(u);
      }
      var more := WellFormedIsEncoding(u[n + 1..]);
      tokens := [first] + more;
      assert tokens[1..] == more;
      assert u == u[..n + 1] + u[n + 1..];
    }
  }

  /** Bytes are accepted exactly if they are the UTF-8 encoding of some characters. */
  lemma WellFormedIffUtf8(u: seq<int>)
    requires forall i :: 0 <= i < |u| ==> 0 <= u[i]
    ensures WellFormed(u) <==> exists tokens :: ValidTokens(tokens) && Encoding(tokens) == u
  {
    if WellFormed(u) {
      var tokens := WellFormedIsEncoding(u);
    }
    if tokens :| ValidTokens(tokens) && Encoding(tokens) == u {
      EncodingIsWellFormed(tokens);
    }
  }

  /** The bytes of a spelled text: escapes spell any byte, and ASCII characters themselves. */
  lemma {:induction false} UnitsOfSpelling(text: string, how: seq<Spelling>)
    requires SpellsAll(text, how)
    ensures var u := Units(SpellAll(text, how));
            |u| == |text| && forall i :: 0 <= i < |u| ==> u[i] == if how[i].Literal? && text[i] as int >= 0x80 then FOREIGN else text[i] as int
  {
    if text != [] {
      UnitsOfSpelling(text[1..], how[1..]);
      SpelledCharacter(text[0], how[0], SpellAll(text[1..], how[1..]));
    }
  }
}
