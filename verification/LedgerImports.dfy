/** Exporting a ledger's state and importing it again, and what an import of an arbitrary
    document promises (`BudgetLedger.export_state` and `import_state`). */
module LedgerImports {
  import opened Wrappers
  import opened Identifiers
  import opened Usage
  import opened Ledgers
  import opened LedgerRuns

  // ----- Round trips -----

  lemma LastIsNotLive(items: seq<Reservation>)
    requires DistinctIds(items) && items != []
    ensures !Live(items[..|items| - 1], items[|items| - 1].id)
  {
  }

  predicate ShortIds(items: seq<Reservation>) {
    forall i :: 0 <= i < |items| ==> |items[i].id| <= MAX_RESERVATION_ID_LENGTH
  }

  lemma ReadingOneMore(earlier: seq<Reservation>, item: Reservation)
    ensures var read := ReadReservations(earlier);
            ReadReservations(earlier + [item]) ==
            if read.None? || !ReadableId(item.id) || Live(read.value, Strip(item.id)) then None
            else Some(read.value + [Reservation(Strip(item.id), item.usage)])
  {
    hide Strip, ReadableId, Live, DistinctIds;
    assert (earlier + [item])[..|earlier|] == earlier;
  }

  lemma ReadingNothing()
    ensures ReadReservations([]) == Some([])
  {
  }

  lemma {:induction false} ReadingIsIdentity(items: seq<Reservation>)
    requires DistinctIds(items) && StrippedIds(items)
    ensures ReadReservations(items) == if ShortIds(items) then Some(items) else None
  {
    hide ReadReservations, Strip;
    if items == [] {
      ReadingNothing();
    } else {
      var earlier, item := items[..|items| - 1], items[|items| - 1];
      ReadingIsIdentity(earlier);
      ReadingOneMore(earlier, item);
      StripNormalises(item.id);
      LastIsNotLive(items);
      assert items == earlier + [item];
      assert ShortIds(items) <==> ShortIds(earlier) && |item.id| <= MAX_RESERVATION_ID_LENGTH;
    }
  }

  /** Importing what a ledger exported restores it exactly, into any ledger, if and only if
      every live identifier is short enough for the reader; otherwise the import is refused. */
  lemma ExportThenImport(l: Ledger, target: Ledger)
    requires WellFormed(l) && l.budget.Valid()
    ensures Import(target, Export(l)) == if ShortIds(l.reservations) then (l, Ok(())) else (target, Err(StateInvalid))
  {
    ReadingIsIdentity(l.reservations);
  }

  /** An identifier a ledger issues is readable exactly up to a number of 244 digits. */
  lemma IssuedIdentifiersAreReadable(n: nat)
    ensures |ReservationId(n)| <= MAX_RESERVATION_ID_LENGTH <==> n < PowerOfTen(244)
    ensures ReadableId(ReservationId(n)) <==> n < PowerOfTen(244)
  {
    hide Strip, PowerOfTen;
    DecimalLengthIsExact(n, 244);
    ReservationIdIsStripped(n);
    StripNormalises(ReservationId(n));
  }

  lemma IssuedIdsAreShort(l: Ledger)
    requires Issued(l) && l.next <= PowerOfTen(244)
    ensures ShortIds(l.reservations)
  {
    hide PowerOfTen, ReservationId;
    forall i | 0 <= i < |l.reservations|
      ensures |l.reservations[i].id| <= MAX_RESERVATION_ID_LENGTH
    {
      assert NumberedBelow(l.reservations[i].id, l.next);
      var k: nat :| k < l.next && l.reservations[i].id == ReservationId(k);
      IssuedIdentifiersAreReadable(k);
    }
  }

  /** Export and import are inverse on every ledger that any interleaving of calls reaches from
      a fresh one while fewer than 10^244 reservations have been granted. */
  lemma ReachedLedgersRoundTrip(budget: RunBudget, l: Ledger, log: Effect, target: Ledger)
    requires Reached(budget, l, log) && |log.granted| < PowerOfTen(244)
    ensures Import(target, Export(l)) == (l, Ok(()))
  {
    hide Run, Log, PowerOfTen;
    ConservationAndSafety(budget, l, log);
    var calls :| l == Run(Fresh(budget), calls) && log == Log(Fresh(budget), calls);
    IdentifiersAreNeverReissued(budget, calls);
    AccountedIsIssued(l, log.granted);
    IssuedIdsAreShort(l);
    ExportThenImport(l, target);
  }

  lemma AccountedIsIssued(l: Ledger, issued: seq<Reservation>)
    requires Accounted(l, issued)
    ensures Issued(l) && l.next == |issued| + 1
  {
    forall i | 0 <= i < |l.reservations|
      ensures NumberedBelow(l.reservations[i].id, l.next)
    {
      assert l.reservations[i] in issued;
      var k :| 0 <= k < |issued| && issued[k] == l.reservations[i];
    }
  }

  // ----- Arbitrary documents -----

  /** A refused import changes nothing; an accepted one always yields a well-formed ledger
      whose next number exceeds the live count, whatever the document held. */
  lemma ImportIsAllOrNothing(l: Ledger, document: Document)
    ensures Import(l, document).1.Err? ==> Import(l, document).0 == l
    ensures Import(l, document).1.Ok? ==> WellFormed(Import(l, document).0)
  {
    if Import(l, document).1.Ok? {
      ReadIdsAreStripped(document.reservations);
      assert ReadReservations(document.reservations).value == Import(l, document).0.reservations;
    }
  }

  lemma {:induction false} ReadIdsAreStripped(items: seq<Reservation>)
    ensures var read := ReadReservations(items);
            read.Some? ==> StrippedIds(read.value)
  {
    hide Strip, Stripped;
    if items != [] {
      var earlier := items[..|items| - 1];
      ReadIdsAreStripped(earlier);
      StripNormalises(items[|items| - 1].id);
      var read := ReadReservations(items);
      if read.Some? {
        assert forall i :: 0 <= i < |earlier| ==> read.value[i] == ReadReservations(earlier).value[i];
      }
    }
  }

  /** The identifiers are readable and stay different once stripped. */
  predicate ReadableItems(items: seq<Reservation>) {
    && (forall i :: 0 <= i < |items| ==> ReadableId(items[i].id))
    && forall i, j :: 0 <= i < j < |items| ==> Strip(items[i].id) != Strip(items[j].id)
  }

  predicate StrippedFrom(read: seq<Reservation>, items: seq<Reservation>) {
    |read| == |items| && forall i :: 0 <= i < |items| ==> read[i] == Reservation(Strip(items[i].id), items[i].usage)
  }

  lemma {:induction false} ReadingIsExact(items: seq<Reservation>)
    ensures ReadReservations(items).Some? <==> ReadableItems(items)
    ensures ReadReservations(items).Some? ==> StrippedFrom(ReadReservations(items).value, items)
  {
    hide ReadReservations, Strip, ReadableId;
    if items == [] {
      ReadingNothing();
    } else {
      var earlier, item := items[..|items| - 1], items[|items| - 1];
      ReadingIsExact(earlier);
      ReadingOneMore(earlier, item);
      assert items == earlier + [item];
      assert ReadableItems(items) ==> ReadableItems(earlier);
      if ReadableItems(earlier) {
        var read := ReadReservations(earlier).value;
        assert forall i :: 0 <= i < |read| ==> read[i].id == Strip(items[i].id);
      }
    }
  }

  /** What the importer asks of a document: the limits are not part of it. */
  predicate Importable(document: Document) {
    && document.version == STATE_VERSION
    && GetOr(document.budget, DEFAULT_BUDGET).Valid()
    && ReadableItems(document.reservations)
    && Sum(Usages(document.reservations)) == GetOr(document.reserved, ZERO)
    && GetOr(document.next, 1) >= 1
  }

  lemma ReadUsages(read: seq<Reservation>, items: seq<Reservation>)
    requires StrippedFrom(read, items)
    ensures Usages(read) == Usages(items)
  {
  }

  /** Exactly when an import is accepted, and exactly when the ledger it gives is within its
      limits: usage and reservations of the document together fit the document's budget. */
  lemma ImportIsExact(l: Ledger, document: Document)
    ensures Import(l, document).1.Ok? <==> Importable(document)
    ensures Import(l, document).1.Ok? ==>
              (Safe(Import(l, document).0) <==>
               Within(GetOr(document.budget, DEFAULT_BUDGET), Add(GetOr(document.usage, ZERO), Sum(Usages(document.reservations)))))
  {
    hide Within, ReadableItems, ReadReservations, Sum, Usages;
    ReadingIsExact(document.reservations);
    if ReadReservations(document.reservations).Some? {
      ReadUsages(ReadReservations(document.reservations).value, document.reservations);
    }
  }

  /** A safe ledger's export, accepted anywhere, gives a safe ledger. */
  lemma ExportedImportIsSafe(l: Ledger, target: Ledger)
    requires WellFormed(l) && Safe(l) && l.budget.Valid() && Import(target, Export(l)).1.Ok?
    ensures Safe(Import(target, Export(l)).0)
  {
    hide Import, Safe;
    ExportThenImport(l, target);
  }

  /** The limits are not part of what an import checks: a document that the importer
      accepts can describe a ledger that is already over its limit. */
  lemma ImportMayExceedLimits()
    ensures exists document :: Import(Fresh(DEFAULT_BUDGET), document).1.Ok? && !Safe(Import(Fresh(DEFAULT_BUDGET), document).0)
  {
    var over := Counters(33, 0, 0, 0, 0, 0.0, 0);
    var document := Document(STATE_VERSION, None, Some(over), None, [], None);
    assert Usages([]) == [];
    assert ReadReservations([]) == Some([]);
    var l := Import(Fresh(DEFAULT_BUDGET), document);
    assert l.1.Ok?;
    assert Amount(Add(l.0.usage, l.0.reserved), ModelCalls) > Limit(l.0.budget, ModelCalls);
  }
}
