/** Text normalisation, the identifier rule, and the names derived from numbers:
    revision, provenance and reservation identifiers. */
module Identifiers {
  import opened Wrappers

  const MAX_IDENTIFIER_LENGTH: nat := 64

  predicate IsSpace(c: char) {
    c == ' ' || '\t' <= c <= '\r' || '\U{1c}' <= c <= '\U{1f}'
  }

  function StripLeft(s: string): (r: string)
    ensures |r| <= |s|
    ensures r == [] || !IsSpace(r[0])
    ensures r == s[|s| - |r|..] && forall i :: 0 <= i < |s| - |r| ==> IsSpace(s[i])
  {
    if s != [] && IsSpace(s[0]) then
      assert forall i :: 0 < i < |s| ==> s[i] == s[1..][i - 1];
      StripLeft(s[1..])
    else s
  }

  function StripRight(s: string): (r: string)
    ensures |r| <= |s|
    ensures r == [] || !IsSpace(r[|r| - 1])
    ensures r == s[..|r|] && forall i :: |r| <= i < |s| ==> IsSpace(s[i])
  {
    if s != [] && IsSpace(s[|s| - 1]) then StripRight(s[..|s| - 1]) else s
  }

  /** `str.strip` with no argument. */
  function Strip(s: string): string {
    StripRight(StripLeft(s))
  }

  predicate Stripped(s: string) {
    s == [] || (!IsSpace(s[0]) && !IsSpace(s[|s| - 1]))
  }

  /** Stripping leaves neither end blank, and changes nothing that is already stripped. */
  lemma StripNormalises(s: string)
    ensures Stripped(Strip(s))
    ensures Stripped(s) ==> Strip(s) == s
    ensures |Strip(s)| <= |s|
  {
  }

  predicate Blank(s: string) {
    forall i :: 0 <= i < |s| ==> IsSpace(s[i])
  }

  /** Stripping takes off the blanks at both ends and nothing else. */
  lemma StripTakesBlanksOff(s: string) returns (before: string, after: string)
    ensures s == before + Strip(s) + after && Blank(before) && Blank(after) && Stripped(Strip(s))
  {
    before, after := EndsOf(s, StripLeft(s), StripRight(StripLeft(s)));
    hide StripLeft, StripRight, IsSpace;
    StripNormalises(s);
  }

  lemma EndsOf(s: string, left: string, all: string) returns (before: string, after: string)
    requires |all| <= |left| <= |s| && left == s[|s| - |left|..] && all == left[..|all|]
    requires (forall i :: 0 <= i < |s| - |left| ==> IsSpace(s[i])) && forall i :: |all| <= i < |left| ==> IsSpace(left[i])
    ensures s == before + all + after && Blank(before) && Blank(after)
  {
    hide IsSpace;
    before, after := s[..|s| - |left|], left[|all|..];
  }

  predicate IsAlphanumeric(c: char) {
    'A' <= c <= 'Z' || 'a' <= c <= 'z' || '0' <= c <= '9'
  }

  predicate IsIdentifierChar(c: char) {
    IsAlphanumeric(c) || c == '.' || c == '_' || c == ':' || c == '-'
  }

  /** The text matched by the identifier pattern: a letter or digit, then at most
      127 safe characters. */
  predicate MatchesPattern(s: string) {
    0 < |s| <= 128 && IsAlphanumeric(s[0]) && forall i :: 0 <= i < |s| ==> IsIdentifierChar(s[i])
  }

  /** The characters by their codes: what an identifier starts with and holds, and the blanks. */
  lemma CharacterClasses(c: char)
    ensures var n := c as int;
            var letterOrDigit := 48 <= n <= 57 || 65 <= n <= 90 || 97 <= n <= 122;
            && (IsAlphanumeric(c) <==> letterOrDigit)
            && (IsIdentifierChar(c) <==> letterOrDigit || n == 45 || n == 46 || n == 58 || n == 95)
            && (IsSpace(c) <==> n == 32 || 9 <= n <= 13 || 28 <= n <= 31)
  {
  }

  predicate IsIdentifier(s: string, maximum: nat) {
    MatchesPattern(s) && |s| <= maximum
  }

  /** The validated, stripped identifier, or `None` where the source raises. */
  function RequireIdentifier(value: string, maximum: nat): (r: Option<string>)
    ensures r.Some? ==> IsIdentifier(r.value, maximum)
  {
    var normalized := Strip(value);
    if IsIdentifier(normalized, maximum) then Some(normalized) else None
  }

  lemma PatternIsStripped(s: string)
    requires MatchesPattern(s)
    ensures Stripped(s)
  {
    assert IsIdentifierChar(s[|s| - 1]);
  }

  /** A valid identifier passes the check unchanged, so validating twice is validating once. */
  lemma ValidIdentifierIsKept(value: string, maximum: nat)
    ensures IsIdentifier(value, maximum) ==> RequireIdentifier(value, maximum) == Some(value)
    ensures RequireIdentifier(value, maximum).Some? ==>
              RequireIdentifier(RequireIdentifier(value, maximum).value, maximum) == RequireIdentifier(value, maximum)
  {
    hide Strip, Stripped, MatchesPattern;
    StripNormalises(value);
    if MatchesPattern(value) {
      PatternIsStripped(value);
    }
    StripNormalises(Strip(value));
  }

  /** The nonempty stripped text of at most `maximum` characters, or `None`. */
  function RequireText(value: string, maximum: nat): (r: Option<string>)
    ensures r.Some? ==> 0 < |r.value| <= maximum
  {
    var normalized := Strip(value);
    if 0 < |normalized| <= maximum then Some(normalized) else None
  }

  lemma ValidTextIsKept(value: string, maximum: nat)
    requires RequireText(value, maximum).Some?
    ensures RequireText(RequireText(value, maximum).value, maximum) == RequireText(value, maximum)
  {
  }

  // ----- Decimal numerals -----

  predicate IsDigit(c: char) {
    '0' <= c <= '9'
  }

  function Digit(n: nat): (c: char)
    requires n < 10
    ensures IsDigit(c) && c as int == '0' as int + n
  {
    ('0' as int + n) as char
  }

  function DigitValue(c: char): (n: nat)
    requires IsDigit(c)
    ensures n < 10
  {
    c as int - '0' as int
  }

  function Decimal(n: nat): (r: string)
    ensures r != [] && forall i :: 0 <= i < |r| ==> IsDigit(r[i])
  {
    if n < 10 then [Digit(n)] else Decimal(n / 10) + [Digit(n % 10)]
  }

  function DigitsValue(s: string): nat
    requires forall i :: 0 <= i < |s| ==> IsDigit(s[i])
  {
    if s == [] then 0 else 10 * DigitsValue(s[..|s| - 1]) + DigitValue(s[|s| - 1])
  }

  /** Reading back the numeral of a number gives the number. */
  lemma {:induction false} DecimalReadsBack(n: nat)
    ensures DigitsValue(Decimal(n)) == n
  {
    var s := Decimal(n);
    if n < 10 {
      assert s[..|s| - 1] == [];
    } else {
      DecimalReadsBack(n / 10);
      assert s[..|s| - 1] == Decimal(n / 10);
    }
  }

  /** Exactly the numbers below a power of ten have that many digits or fewer. */
  lemma {:induction false} DecimalLengthIsExact(n: nat, digits: nat)
    requires digits >= 1
    ensures |Decimal(n)| <= digits <==> n < PowerOfTen(digits)
  {
    if n >= 10 {
      if digits == 1 {
        assert PowerOfTen(1) == 10 * PowerOfTen(0);
      } else {
        DecimalLengthIsExact(n / 10, digits - 1);
      }
    } else {
      assert PowerOfTen(digits) >= 10;
    }
  }

  function PowerOfTen(k: nat): (r: nat)
    ensures r >= 1
  {
    if k == 0 then 1 else 10 * PowerOfTen(k - 1)
  }

  // ----- Derived names -----

  function RevisionId(design: string, sequence: nat): string {
    "rev-" + design + "-r" + Decimal(sequence)
  }

  function ProvenanceId(design: string, sequence: nat): string {
    "prov-" + design + "-r" + Decimal(sequence)
  }

  function ReservationId(n: nat): string {
    "reservation-" + Decimal(n)
  }

  /** The length of a name without its trailing digits. */
  function StemLength(s: string): (n: nat)
    ensures n <= |s|
  {
    if s == [] || !IsDigit(s[|s| - 1]) then |s| else StemLength(s[..|s| - 1])
  }

  /** A stem that ends in a non-digit can be read off the name, whatever numeral follows. */
  lemma {:induction false} StemIsReadOff(stem: string, numeral: string)
    requires stem != [] && !IsDigit(stem[|stem| - 1])
    requires forall i :: 0 <= i < |numeral| ==> IsDigit(numeral[i])
    ensures StemLength(stem + numeral) == |stem|
  {
    if numeral == [] {
      assert stem + numeral == stem;
    } else {
      var shorter := numeral[..|numeral| - 1];
      assert (stem + numeral)[..|stem + numeral| - 1] == stem + shorter;
      StemIsReadOff(stem, shorter);
    }
  }

  lemma NumeralSuffixIsUnambiguous(a: string, m: nat, b: string, n: nat)
    requires a != [] && !IsDigit(a[|a| - 1]) && b != [] && !IsDigit(b[|b| - 1])
    requires a + Decimal(m) == b + Decimal(n)
    ensures a == b && m == n
  {
    StemIsReadOff(a, Decimal(m));
    StemIsReadOff(b, Decimal(n));
    assert a == (a + Decimal(m))[..|a|] && b == (b + Decimal(n))[..|a|];
    assert Decimal(m) == (a + Decimal(m))[|a|..] && Decimal(n) == (b + Decimal(n))[|a|..];
    DecimalReadsBack(m);
    DecimalReadsBack(n);
  }

  /** Two revisions share an identifier only if they are the same sequence number of the
      same design, even though design ids may themselves contain `-r` and digits. */
  lemma RevisionIdIsInjective(d: string, m: nat, e: string, n: nat)
    requires RevisionId(d, m) == RevisionId(e, n)
    ensures d == e && m == n
  {
    var a, b := "rev-" + d + "-r", "rev-" + e + "-r";
    NumeralSuffixIsUnambiguous(a, m, b, n);
    assert a[4..|a| - 2] == d && b[4..|b| - 2] == e;
  }

  /** Reservation numbers and reservation names correspond one to one. */
  lemma ReservationIdIsInjective(m: nat, n: nat)
    requires ReservationId(m) == ReservationId(n)
    ensures m == n
  {
    NumeralSuffixIsUnambiguous("reservation-", m, "reservation-", n);
  }
}
