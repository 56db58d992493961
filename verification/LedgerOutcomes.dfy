/** What each ledger operation leaves and returns, stated by the fields of the ledger, and which
    dimension a refusal names. */
module LedgerOutcomes {
  import opened Wrappers
  import opened Identifiers
  import opened Usage
  import opened Ledgers
  import opened LedgerRuns
  import opened LedgerImports

  // ----- Which dimension a refusal names -----

  /** The counters of a usage and the limits of a budget, in the order the check looks at them. */
  const CHECK_ORDER: seq<Dimension> := [ModelCalls, ToolCalls, TotalTokens, ArtifactBytes, Duration, Cost, Replanning]

  function FieldsOf(u: BudgetUsage): seq<real> {
    [u.modelCalls as real, u.toolCalls as real, u.totalTokens as real, u.artifactBytes as real,
     u.durationMicros as real / 1000000.0, u.cost, u.replanningAttempts as real]
  }

  function LimitsOf(b: RunBudget): seq<real> {
    [b.maxModelCalls as real, b.maxToolCalls as real, b.maxTotalTokens as real, b.maxArtifactBytes as real,
     b.maxDurationSeconds, b.maxCost, b.maxReplanningAttempts as real]
  }

  /** Dimension `k` is the first one in which what is held and the charge are over the limit. */
  predicate FirstOver(b: RunBudget, held: BudgetUsage, charge: BudgetUsage, k: nat)
    requires k < 7
  {
    && FieldsOf(held)[k] + FieldsOf(charge)[k] > LimitsOf(b)[k]
    && forall j :: 0 <= j < k ==> FieldsOf(held)[j] + FieldsOf(charge)[j] <= LimitsOf(b)[j]
  }

  function MaxReal(a: real, b: real): real {
    if a > b then a else b
  }

  /** A refusal names the first dimension that is over its limit, with what was asked for, what was
      left and the limit; and one is given exactly if some dimension is. */
  lemma RefusalNamesFirstExceeded(b: RunBudget, held: BudgetUsage, charge: BudgetUsage)
    ensures var refusal := FirstExceeded(b, held, charge, DIMENSIONS);
            && (refusal.None? <==> forall k :: 0 <= k < 7 ==> FieldsOf(held)[k] + FieldsOf(charge)[k] <= LimitsOf(b)[k])
            && (forall k: nat :: k < 7 && FirstOver(b, held, charge, k) ==>
                  refusal == Some(Exhausted(CHECK_ORDER[k], FieldsOf(held)[k] + FieldsOf(charge)[k],
                                            MaxReal(0.0, LimitsOf(b)[k] - FieldsOf(held)[k]), LimitsOf(b)[k])))
  {
    FromDimension(b, held, charge, 0);
    assert DIMENSIONS[0..] == DIMENSIONS;
  }

  lemma DimensionIsField(b: RunBudget, held: BudgetUsage, charge: BudgetUsage, k: nat)
    requires k < 7
    ensures DIMENSIONS[k] == CHECK_ORDER[k]
    ensures Amount(held, DIMENSIONS[k]) == FieldsOf(held)[k] && Limit(b, DIMENSIONS[k]) == LimitsOf(b)[k]
    ensures Amount(Add(held, charge), DIMENSIONS[k]) == FieldsOf(held)[k] + FieldsOf(charge)[k]
  {
    StoredDurations(held.durationMicros, charge.durationMicros);
  }

  lemma FromDimension(b: RunBudget, held: BudgetUsage, charge: BudgetUsage, n: nat)
    requires n <= 7
    ensures var refusal := FirstExceeded(b, held, charge, DIMENSIONS[n..]);
            && (refusal.None? <==> forall k :: n <= k < 7 ==> FieldsOf(held)[k] + FieldsOf(charge)[k] <= LimitsOf(b)[k])
            && (forall k: nat :: n <= k < 7 && FirstOver(b, held, charge, k) ==>
                  refusal == Some(Exhausted(CHECK_ORDER[k], FieldsOf(held)[k] + FieldsOf(charge)[k],
                                            MaxReal(0.0, LimitsOf(b)[k] - FieldsOf(held)[k]), LimitsOf(b)[k])))
    decreases 7 - n
  {
    hide FieldsOf, LimitsOf, Amount, Limit, Add;
    if n < 7 {
      DimensionIsField(b, held, charge, n);
      FromDimension(b, held, charge, n + 1);
      assert DIMENSIONS[n..][0] == DIMENSIONS[n] && DIMENSIONS[n..][1..] == DIMENSIONS[n + 1..];
    }
  }

  /** What the check looks at: usage, and the reservations besides the one being committed; giving
      up more than is reserved is refused before. */
  lemma CheckLooksAtHeld(l: Ledger, charge: BudgetUsage, released: Option<BudgetUsage>)
    ensures released.None? ==> Check(l, charge, released) == FirstExceeded(l.budget, Add(l.usage, l.reserved), charge, DIMENSIONS)
    ensures released.Some? && !Dominates(l.reserved, released.value) ==> Check(l, charge, released) == Some(CounterUnderflow)
    ensures forall others: BudgetUsage :: released.Some? && Add(others, released.value) == l.reserved ==>
              Check(l, charge, released) == FirstExceeded(l.budget, Add(l.usage, others), charge, DIMENSIONS)
  {
    hide FirstExceeded;
    forall others: BudgetUsage | released.Some? && Add(others, released.value) == l.reserved
      ensures Sub(l.reserved, released.value) == Some(others)
    {
      AddIsCommutative(others, released.value);
    }
  }

  // ----- What each operation leaves and returns -----

  /** Consuming adds the charge to usage and returns the new usage. */
  lemma ConsumeEffect(l: Ledger, charge: BudgetUsage)
    ensures var refusal := FirstExceeded(l.budget, Add(l.usage, l.reserved), charge, DIMENSIONS);
            Consume(l, charge) ==
            if refusal.Some? then (l, Err(refusal.value))
            else (Ledger(l.budget, Add(l.usage, charge), l.reserved, l.reservations, l.next), Ok(Add(l.usage, charge)))
  {
    CheckLooksAtHeld(l, charge, None);
    hide FirstExceeded;
  }

  /** Reserving appends a reservation of exactly the charge, under the first free number. */
  lemma ReserveEffect(l: Ledger, charge: BudgetUsage)
    ensures var refusal := FirstExceeded(l.budget, Add(l.usage, l.reserved), charge, DIMENSIONS);
            if refusal.Some? then Reserve(l, charge) == (l, Err(refusal.value))
            else
              var n := FreeNumber(l.reservations, l.next);
              var r := Reservation("reservation-" + Decimal(n), charge);
              Reserve(l, charge) == (Ledger(l.budget, l.usage, Add(l.reserved, charge), l.reservations + [r], n + 1), Ok(r))
  {
    CheckLooksAtHeld(l, charge, None);
    hide FirstExceeded, Decimal;
  }

  /** The rest of the ledger once a reservation is closed. */
  predicate ClosedTo(l: Ledger, r: Reservation, rest: seq<Reservation>, held: BudgetUsage) {
    && (exists i :: 0 <= i < |l.reservations| && l.reservations[i] == r && rest == l.reservations[..i] + l.reservations[i + 1..])
    && Add(held, r.usage) == l.reserved
  }

  /** Who is not live, or live with other amounts, is refused and changes nothing. */
  lemma UnknownReservations(l: Ledger, r: Reservation, actual: Option<BudgetUsage>)
    requires WellFormed(l) && r !in l.reservations
    ensures var error := if exists i :: 0 <= i < |l.reservations| && l.reservations[i].id == r.id then ReservationMismatch else ReservationUnknown;
            Release(l, r) == (l, Err(error)) && Commit(l, r, actual) == (l, Err(error))
  {
    hide Check;
    RequireIsMembership(l, r);
  }

  /** Releasing takes exactly the reservation out and gives back what it held. */
  lemma ReleaseEffect(l: Ledger, r: Reservation)
    requires WellFormed(l) && r in l.reservations
    ensures var after := Release(l, r).0;
            && ClosedTo(l, r, after.reservations, after.reserved)
            && after == Ledger(l.budget, l.usage, after.reserved, after.reservations, l.next) && Release(l, r).1 == Ok(after.reserved)
  {
    LiveIsFound(l, r);
    RequireIsMembership(l, r);
    ClosingKeepsWellFormed(l, r);
    hide WellFormed, IndexOf, Sub, Add, RequireReservation;
  }

  /** Committing takes the reservation out and charges what was used, or what was reserved if that
      is not said; it is refused if usage, the other reservations and that charge do not fit. */
  lemma CommitEffect(l: Ledger, r: Reservation, actual: Option<BudgetUsage>)
    requires WellFormed(l) && r in l.reservations
    ensures var charge, others := if actual.Some? then actual.value else r.usage, Release(l, r).0.reserved;
            var refusal := FirstExceeded(l.budget, Add(l.usage, others), charge, DIMENSIONS);
            Commit(l, r, actual) ==
            if refusal.Some? then (l, Err(refusal.value))
            else (Ledger(l.budget, Add(l.usage, charge), others, Release(l, r).0.reservations, l.next), Ok(Add(l.usage, charge)))
  {
    ReleaseEffect(l, r);
    RequireIsMembership(l, r);
    ClosingKeepsWellFormed(l, r);
    CheckLooksAtHeld(l, if actual.Some? then actual.value else r.usage, Some(r.usage));
    hide WellFormed, IndexOf, Add, RequireReservation, FirstExceeded, Check;
  }

  // ----- What is reported as remaining -----

  /** What is left in each dimension is the limit less what is held, and nothing if that is over. */
  lemma RemainingIsTheRest(l: Ledger)
    ensures var left, held, limits := FieldsOf(Remaining(l)), FieldsOf(Add(l.usage, l.reserved)), LimitsOf(l.budget);
            && (forall k :: 0 <= k < 7 && k != 4 ==> left[k] == MaxReal(0.0, limits[k] - held[k]))
            && left[4] == RoundHalfEven(MaxReal(0.0, limits[4] - held[4]) * 1000000.0) as real / 1000000.0
  {
    hide RoundHalfEven;
    StoredDurations(l.usage.durationMicros, l.reserved.durationMicros);
  }

  // ----- What an import leaves -----

  /** An accepted document becomes the ledger: what it gives, defaults for what it does not, its
      reservations under their stripped names, and a next number past their count. */
  lemma ImportedIsTheDocument(l: Ledger, document: Document)
    requires Importable(document)
    ensures var after, count := Import(l, document).0, |document.reservations|;
            && after.budget == (if document.budget.Some? then document.budget.value else RunBudget(32, 64, 100000, 1000000000, 3600.0, 0.0, 3))
            && after.usage == (if document.usage.Some? then document.usage.value else ZERO)
            && after.reserved == (if document.reserved.Some? then document.reserved.value else ZERO)
            && StrippedFrom(after.reservations, document.reservations)
            && after.next == (if document.next.Some? && document.next.value > count + 1 then document.next.value else count + 1)
  {
    ReadingIsExact(document.reservations);
    if ReadReservations(document.reservations).Some? {
      ReadUsages(ReadReservations(document.reservations).value, document.reservations);
    }
    hide ReadReservations, ReadableItems, Sum, Usages;
  }
}
