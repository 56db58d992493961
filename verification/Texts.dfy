/** Splitting text at a separator and joining it again. */
module Texts {
  /** The length of the text before the first separator. */
  function Span(s: string, separator: char): (n: nat)
    ensures n <= |s| && (forall i :: 0 <= i < n ==> s[i] != separator) && (n < |s| ==> s[n] == separator)
  {
    if s == [] || s[0] == separator then 0
    else
      assert forall i :: 0 < i <= 1 + Span(s[1..], separator) && i < |s| ==> s[i] == s[1..][i - 1];
      1 + Span(s[1..], separator)
  }

  /** `str.split` at one character. */
  function Split(s: string, separator: char): (r: seq<string>)
    ensures r != []
    decreases |s|
  {
    var n := Span(s, separator);
    if n == |s| then [s] else [s[..n]] + Split(s[n + 1..], separator)
  }

  lemma SplitUnfolds(s: string, separator: char)
    ensures var n := Span(s, separator);
            Split(s, separator) == if n == |s| then [s] else [s[..n]] + Split(s[n + 1..], separator)
  {
    hide Span;
  }

  predicate Free(part: string, separator: char) {
    forall i :: 0 <= i < |part| ==> part[i] != separator
  }

  /** Every part after a separator of its own. */
  function Joined(parts: seq<string>, separator: char): string {
    if parts == [] then "" else [separator] + parts[0] + Joined(parts[1..], separator)
  }

  lemma {:induction false} SpanOfFree(part: string, tail: string, separator: char)
    requires Free(part, separator) && (tail == [] || tail[0] == separator)
    ensures Span(part + tail, separator) == |part|
  {
    if part == [] {
      assert part + tail == tail;
    } else {
      assert (part + tail)[1..] == part[1..] + tail;
      SpanOfFree(part[1..], tail, separator);
    }
  }

  lemma FreeIsOnePart(s: string, separator: char)
    requires Free(s, separator)
    ensures Split(s, separator) == [s]
  {
  }

  lemma SplitAtFirst(head: string, rest: string, separator: char)
    requires Free(head, separator)
    ensures Split(head + ([separator] + rest), separator) == [head] + Split(rest, separator)
  {
    hide Span;
    var s := head + ([separator] + rest);
    SpanOfFree(head, [separator] + rest, separator);
    assert s[..|head|] == head && s[|head| + 1..] == rest;
  }

  /** Splitting undoes joining when no part holds the separator. */
  lemma {:induction false} SplitUndoesJoin(head: string, parts: seq<string>, separator: char)
    requires Free(head, separator) && forall i :: 0 <= i < |parts| ==> Free(parts[i], separator)
    ensures Split(head + Joined(parts, separator), separator) == [head] + parts
    decreases |parts|
  {
    hide Split;
    if parts == [] {
      assert head + Joined(parts, separator) == head;
      FreeIsOnePart(head, separator);
    } else {
      var rest := parts[0] + Joined(parts[1..], separator);
      assert Joined(parts, separator) == [separator] + rest;
      SplitAtFirst(head, rest, separator);
      SplitUndoesJoin(parts[0], parts[1..], separator);
      assert parts == [parts[0]] + parts[1..];
    }
  }

  lemma {:induction false} SplitPartsAreFree(s: string, separator: char)
    ensures forall i :: 0 <= i < |Split(s, separator)| ==> Free(Split(s, separator)[i], separator)
    decreases |s|
  {
    hide Span, Split;
    var n := Span(s, separator);
    SplitUnfolds(s, separator);
    if n < |s| {
      SplitPartsAreFree(s[n + 1..], separator);
    }
  }

  lemma JoinFirst(first: string, parts: seq<string>, separator: char)
    requires parts != []
    ensures first + Joined(parts, separator) == first + ([separator] + (parts[0] + Joined(parts[1..], separator)))
  {
  }

  /** Joining undoes splitting: the first part stands alone. */
  lemma {:induction false} JoinUndoesSplit(s: string, separator: char)
    ensures var parts := Split(s, separator); s == parts[0] + Joined(parts[1..], separator)
    decreases |s|
  {
    hide Split, Joined, Span;
    var n := Span(s, separator);
    SplitUnfolds(s, separator);
    if n < |s| {
      assert s == s[..n] + ([separator] + s[n + 1..]);
      var rest := Split(s[n + 1..], separator);
      JoinUndoesSplit(s[n + 1..], separator);
      JoinFirst(s[..n], rest, separator);
      assert Split(s, separator)[1..] == rest;
    } else {
      assert Joined([], separator) == "" by { NothingJoined(separator); }
      assert Split(s, separator)[1..] == [];
    }
  }

  lemma NothingJoined(separator: char)
    ensures Joined([], separator) == ""
  {
  }
}
