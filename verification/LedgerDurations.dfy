/** How far the duration a ledger records can be from the time really charged. Every raw duration
    is rounded to whole microseconds once, where it enters: in the usage a caller constructs, and
    in the `duration_seconds` keyword, so one charge can round twice. */
module LedgerDurations {
  import opened Wrappers
  import opened Usage
  import opened Ledgers
  import opened LedgerRuns
  import opened Charges

  // ----- Charges as callers write them -----

  /** A usage constructed from raw seconds; the other counters are as given. */
  datatype RawUsage = RawUsage(others: BudgetUsage, seconds: real)

  /** The usage argument of a call, if any, and its keywords. */
  datatype RawCharge = RawCharge(base: Option<RawUsage>, keywords: seq<(Keyword, Quantity)>)

  predicate Mergeable(raw: RawCharge) {
    (raw.base.Some? ==> raw.base.value.seconds >= 0.0) && Accepted(raw.keywords)
  }

  function Constructed(base: Option<RawUsage>): BudgetUsage
    requires base.Some? ==> base.value.seconds >= 0.0
  {
    if base.None? then ZERO
    else
      RoundIsMonotone(0.0, base.value.seconds * 1000000.0);
      base.value.others.(durationMicros := Microseconds(base.value.seconds))
  }

  /** What `Charges.MergeUsage` makes of a charge. */
  function Merge(raw: RawCharge): BudgetUsage
    requires Mergeable(raw)
  {
    Add(Constructed(raw.base), Sum(Increments(raw.keywords)))
  }

  function KeywordDurations(keywords: seq<(Keyword, Quantity)>): seq<real> {
    if keywords == [] then []
    else
      var last := keywords[|keywords| - 1];
      KeywordDurations(keywords[..|keywords| - 1]) + (if last.0.DurationSeconds? then [AsReal(last.1)] else [])
  }

  /** The raw durations of a charge: each is rounded by itself. */
  function Durations(raw: RawCharge): seq<real> {
    (if raw.base.Some? then [raw.base.value.seconds] else []) + KeywordDurations(raw.keywords)
  }

  lemma {:induction false} RecordedConcat(a: seq<real>, b: seq<real>)
    ensures RecordedMicroseconds(a + b) == RecordedMicroseconds(a) + RecordedMicroseconds(b)
    ensures TotalSeconds(a + b) == TotalSeconds(a) + TotalSeconds(b)
  {
    hide Microseconds;
    if b == [] {
      assert a + b == a;
    } else {
      assert (a + b)[..|a + b| - 1] == a + b[..|b| - 1];
      RecordedConcat(a, b[..|b| - 1]);
    }
  }

  lemma RecordedOfOne(x: real)
    ensures RecordedMicroseconds([x]) == Microseconds(x) && TotalSeconds([x]) == x
    ensures RecordedMicroseconds([]) == 0 && TotalSeconds([]) == 0.0
  {
    hide Microseconds;
    assert [x][..0] == [];
  }

  lemma AddDurations(a: BudgetUsage, b: BudgetUsage)
    ensures Add(a, b).durationMicros == a.durationMicros + b.durationMicros
  {
  }

  lemma IncrementRounds(key: Keyword, q: Quantity)
    requires Refused(key, q).None?
    ensures Increment(key, q).durationMicros == if key.DurationSeconds? then Microseconds(AsReal(q)) else 0
  {
    hide Microseconds, AsReal;
  }

  lemma NoIncrements()
    ensures Sum(Increments([])) == ZERO
  {
  }

  lemma {:induction false} KeywordsRound(keywords: seq<(Keyword, Quantity)>)
    requires Accepted(keywords)
    ensures Sum(Increments(keywords)).durationMicros == RecordedMicroseconds(KeywordDurations(keywords))
  {
    hide Microseconds, Sum, Add, Increment, Increments, Refused, RecordedMicroseconds, TotalSeconds;
    if keywords == [] {
      NoIncrements();
      RecordedOfOne(0.0);
    } else {
      var n := |keywords| - 1;
      var earlier, last := keywords[..n], keywords[n];
      assert Refused(last.0, last.1).None? && keywords[..n + 1] == keywords;
      KeywordsRound(earlier);
      SumOfNextIncrement(keywords, n);
      AddDurations(Sum(Increments(earlier)), Increment(last.0, last.1));
      IncrementRounds(last.0, last.1);
      RecordedOfOne(AsReal(last.1));
      RecordedConcat(KeywordDurations(earlier), [AsReal(last.1)]);
      assert KeywordDurations(earlier) + [] == KeywordDurations(earlier);
    }
  }

  /** A merged charge records each of its raw durations, rounded by itself. */
  lemma MergeRoundsEach(raw: RawCharge)
    requires Mergeable(raw)
    ensures Merge(raw).durationMicros == RecordedMicroseconds(Durations(raw))
  {
    hide Microseconds, Sum, Increments, KeywordDurations;
    KeywordsRound(raw.keywords);
    if raw.base.Some? {
      RecordedOfOne(raw.base.value.seconds);
      RecordedConcat([raw.base.value.seconds], KeywordDurations(raw.keywords));
    } else {
      assert [] + KeywordDurations(raw.keywords) == KeywordDurations(raw.keywords);
    }
  }

  // ----- Runs of raw calls -----

  datatype RawCall =
    | RawConsume(charge: RawCharge)
    | RawReserve(charge: RawCharge)
    | RawCommit(reservation: Reservation, actual: Option<RawCharge>)
    | RawRelease(reservation: Reservation)

  predicate Callable(raw: RawCall) {
    match raw
    case RawConsume(charge) => Mergeable(charge)
    case RawReserve(charge) => Mergeable(charge)
    case RawCommit(_, actual) => actual.Some? ==> Mergeable(actual.value)
    case RawRelease(_) => true
  }

  function LoweredActual(actual: Option<RawCharge>): Option<BudgetUsage>
    requires actual.Some? ==> Mergeable(actual.value)
  {
    if actual.None? then None else Some(Merge(actual.value))
  }

  /** The call on the ledger once the charge is merged. */
  function Lowered(raw: RawCall): Call
    requires Callable(raw)
  {
    match raw
    case RawConsume(charge) => CallConsume(Merge(charge))
    case RawReserve(charge) => CallReserve(Merge(charge))
    case RawCommit(r, actual) => CallCommit(r, LoweredActual(actual))
    case RawRelease(r) => CallRelease(r)
  }

  /** The ledger calls of a list of raw calls; one whose charge cannot be merged makes none. */
  function AllLowered(raws: seq<RawCall>): seq<Call> {
    if raws == [] then []
    else
      var last := raws[|raws| - 1];
      AllLowered(raws[..|raws| - 1]) + (if Callable(last) then [Lowered(last)] else [])
  }

  /** The raw durations of every accepted charge, in order, and those behind every reservation. */
  datatype Account = Account(paid: seq<seq<real>>, held: map<string, seq<real>>)

  function AccountAfter(l: Ledger, account: Account, raw: RawCall): Account {
    if !Callable(raw) then account
    else
      match raw
      case RawConsume(charge) =>
        if Consume(l, Merge(charge)).1.Ok? then account.(paid := account.paid + [Durations(charge)]) else account
      case RawReserve(charge) =>
        var r := Reserve(l, Merge(charge)).1;
        if r.Ok? then account.(held := account.held[r.value.id := Durations(charge)]) else account
      case RawCommit(r, actual) =>
        if Commit(l, r, LoweredActual(actual)).1.Err? then account
        else if actual.Some? then account.(paid := account.paid + [Durations(actual.value)])
        else account.(paid := account.paid + [if r.id in account.held then account.held[r.id] else []])
      case RawRelease(_) => account
  }

  function AccountOf(budget: RunBudget, raws: seq<RawCall>): Account {
    if raws == [] then Account([], map[])
    else
      var earlier := raws[..|raws| - 1];
      AccountAfter(Run(Fresh(budget), AllLowered(earlier)), AccountOf(budget, earlier), raws[|raws| - 1])
  }

  function Flat(lists: seq<seq<real>>): seq<real> {
    if lists == [] then [] else Flat(lists[..|lists| - 1]) + lists[|lists| - 1]
  }

  // ----- What the ledger records -----

  /** Usage holds every raw duration of the accepted charges, rounded by itself, and every live
      reservation those of its charge. */
  predicate Records(l: Ledger, account: Account) {
    && l.usage.durationMicros == RecordedMicroseconds(Flat(account.paid))
    && forall i :: 0 <= i < |l.reservations| ==> HoldsDurations(l.reservations[i], account.held)
  }

  predicate HoldsDurations(r: Reservation, held: map<string, seq<real>>) {
    r.id in held && r.usage.durationMicros == RecordedMicroseconds(held[r.id])
  }

  lemma FlatOneMore(paid: seq<seq<real>>, more: seq<real>)
    ensures RecordedMicroseconds(Flat(paid + [more])) == RecordedMicroseconds(Flat(paid)) + RecordedMicroseconds(more)
    ensures TotalSeconds(Flat(paid + [more])) == TotalSeconds(Flat(paid)) + TotalSeconds(more)
  {
    hide RecordedMicroseconds, TotalSeconds;
    assert (paid + [more])[..|paid|] == paid;
    RecordedConcat(Flat(paid), more);
  }

  lemma RestHolds(reservations: seq<Reservation>, k: nat, held: map<string, seq<real>>)
    requires k < |reservations| && forall i :: 0 <= i < |reservations| ==> HoldsDurations(reservations[i], held)
    ensures forall i :: 0 <= i < |Remove(reservations, k)| ==> HoldsDurations(Remove(reservations, k)[i], held)
  {
    var rest := Remove(reservations, k);
    assert forall i :: 0 <= i < |rest| ==> rest[i] == reservations[if i < k then i else i + 1];
    hide Remove, HoldsDurations;
  }

  lemma ConsumeRecords(l: Ledger, account: Account, raw: RawCall)
    requires Records(l, account) && raw.RawConsume? && Callable(raw)
    ensures Records(Step(l, Lowered(raw)), AccountAfter(l, account, raw))
  {
    hide Check, Merge, Durations, Flat, RecordedMicroseconds, Mergeable, HoldsDurations;
    MergeRoundsEach(raw.charge);
    FlatOneMore(account.paid, Durations(raw.charge));
  }

  lemma ReserveRecords(l: Ledger, account: Account, raw: RawCall)
    requires Records(l, account) && raw.RawReserve? && Callable(raw)
    ensures Records(Step(l, Lowered(raw)), AccountAfter(l, account, raw))
  {
    hide Check, Merge, Durations, Flat, RecordedMicroseconds, Mergeable;
    MergeRoundsEach(raw.charge);
    var r := Reserve(l, Merge(raw.charge)).1;
    if r.Ok? {
      assert forall i :: 0 <= i < |l.reservations| ==> l.reservations[i].id != r.value.id;
      var after, held := Step(l, Lowered(raw)), AccountAfter(l, account, raw).held;
      forall i | 0 <= i < |after.reservations|
        ensures HoldsDurations(after.reservations[i], held)
      {
        if i < |l.reservations| {
          assert HoldsDurations(l.reservations[i], account.held);
        }
      }
    }
  }

  lemma ReleaseRecords(l: Ledger, account: Account, raw: RawCall)
    requires Records(l, account) && raw.RawRelease?
    ensures Records(Step(l, Lowered(raw)), AccountAfter(l, account, raw))
  {
    hide Flat, RecordedMicroseconds, HoldsDurations, Remove;
    var k := IndexOf(l.reservations, raw.reservation.id);
    if k < |l.reservations| {
      RestHolds(l.reservations, k, account.held);
    }
  }

  lemma CommitRecords(l: Ledger, account: Account, raw: RawCall)
    requires WellFormed(l) && Records(l, account) && raw.RawCommit? && Callable(raw)
    ensures Records(Step(l, Lowered(raw)), AccountAfter(l, account, raw))
  {
    hide Check, Merge, Durations, Flat, RecordedMicroseconds, Mergeable, HoldsDurations, WellFormed, Remove, Add;
    var r, charge := raw.reservation, GetOr(LoweredActual(raw.actual), raw.reservation.usage);
    if Commit(l, r, LoweredActual(raw.actual)).1.Ok? {
      LiveIsFound(l, r) by { RequireIsMembership(l, r); }
      var k := IndexOf(l.reservations, r.id);
      RestHolds(l.reservations, k, account.held);
      assert HoldsDurations(l.reservations[k], account.held);
      PaymentRounds(account, r, raw.actual);
      AddDurations(l.usage, charge);
    }
  }

  lemma PaymentRounds(account: Account, r: Reservation, actual: Option<RawCharge>)
    requires HoldsDurations(r, account.held) && (actual.Some? ==> Mergeable(actual.value))
    ensures r.id in account.held
    ensures RecordedMicroseconds(Flat(account.paid + [if actual.Some? then Durations(actual.value) else account.held[r.id]])) ==
            RecordedMicroseconds(Flat(account.paid)) + GetOr(LoweredActual(actual), r.usage).durationMicros
  {
    hide Merge, Durations, Flat, RecordedMicroseconds, Mergeable;
    if actual.Some? {
      MergeRoundsEach(actual.value);
      FlatOneMore(account.paid, Durations(actual.value));
    } else {
      FlatOneMore(account.paid, account.held[r.id]);
    }
  }

  lemma {:induction false} RunRecords(budget: RunBudget, raws: seq<RawCall>)
    requires budget.Valid()
    ensures Records(Run(Fresh(budget), AllLowered(raws)), AccountOf(budget, raws))
  {
    hide Callable, Lowered, AccountAfter, Step;
    if raws == [] {
      RecordedOfOne(0.0);
    } else {
      var earlier, last := raws[..|raws| - 1], raws[|raws| - 1];
      var l := Run(Fresh(budget), AllLowered(earlier));
      RunRecords(budget, earlier);
      FreshIsWellFormed(budget);
      FreshIsSafe(budget);
      CallsKeepInvariant(Fresh(budget), AllLowered(earlier));
      RunOneMoreRaw(budget, raws);
      OneMoreRecords(l, AccountOf(budget, earlier), last);
    }
  }

  lemma OneMoreRecords(l: Ledger, account: Account, raw: RawCall)
    requires WellFormed(l) && Records(l, account)
    ensures Records(if Callable(raw) then Step(l, Lowered(raw)) else l, AccountAfter(l, account, raw))
  {
    hide Lowered, Step, WellFormed, Records;
    if Callable(raw) {
      match raw
      case RawConsume(_) => ConsumeRecords(l, account, raw);
      case RawReserve(_) => ReserveRecords(l, account, raw);
      case RawCommit(_, _) => CommitRecords(l, account, raw);
      case RawRelease(_) => ReleaseRecords(l, account, raw);
    }
  }

  lemma RunOneMoreRaw(budget: RunBudget, raws: seq<RawCall>)
    requires raws != []
    ensures var earlier, last := raws[..|raws| - 1], raws[|raws| - 1];
            var l := Run(Fresh(budget), AllLowered(earlier));
            Run(Fresh(budget), AllLowered(raws)) == if Callable(last) then Step(l, Lowered(last)) else l
  {
    hide Callable, Lowered, Step;
    var earlier, last := AllLowered(raws[..|raws| - 1]), raws[|raws| - 1];
    if Callable(last) {
      assert (earlier + [Lowered(last)])[..|earlier|] == earlier;
    } else {
      assert earlier + [] == earlier;
    }
  }

  // ----- The drift -----

  /** The recorded duration is within this many microseconds of the raw durations' sum. */
  predicate Near(microseconds: int, durations: seq<real>, bound: real) {
    -bound <= microseconds as real - TotalSeconds(durations) * 1000000.0 <= bound
  }

  /** After any interleaving of calls on a fresh ledger, the recorded duration is at most half a
      microsecond per rounded duration away from the time really charged. */
  lemma RecordedIsNear(budget: RunBudget, raws: seq<RawCall>)
    requires budget.Valid()
    ensures var inputs := Flat(AccountOf(budget, raws).paid);
            Near(Run(Fresh(budget), AllLowered(raws)).usage.durationMicros, inputs, 0.5 * |inputs| as real)
  {
    hide AccountAfter, Step, Microseconds;
    RunRecords(budget, raws);
    RecordedDurationDrift(Flat(AccountOf(budget, raws).paid));
  }

  predicate HalfEach(paid: seq<seq<real>>) {
    forall i :: 0 <= i < |paid| ==> Near(RecordedMicroseconds(paid[i]), paid[i], 0.5)
  }

  lemma {:induction false} HalvesAddUp(paid: seq<seq<real>>)
    requires HalfEach(paid)
    ensures Near(RecordedMicroseconds(Flat(paid)), Flat(paid), 0.5 * |paid| as real)
  {
    if paid == [] {
      RecordedOfOne(0.0);
    } else {
      var earlier, last := paid[..|paid| - 1], paid[|paid| - 1];
      HalvesAddUp(earlier);
      assert paid == earlier + [last];
      hide RecordedMicroseconds, TotalSeconds, Flat;
      FlatOneMore(earlier, last);
    }
  }

  // ----- When one charge is within half a microsecond -----

  /** How far a duration lies above the whole microseconds it is rounded to. */
  function Off(seconds: real): real {
    seconds * 1000000.0 - Microseconds(seconds) as real
  }

  lemma RecordedOfTwo(x: real, y: real)
    ensures RecordedMicroseconds([x, y]) as real - TotalSeconds([x, y]) * 1000000.0 == -Off(x) - Off(y)
  {
    hide Microseconds;
    assert [x, y] == [x] + [y];
    RecordedConcat([x], [y]);
    RecordedOfOne(x);
    RecordedOfOne(y);
  }

  /** The charge rounds twice, both times in the same direction, and by more than half a
      microsecond together. */
  predicate Strays(durations: seq<real>) {
    |durations| == 2 &&
    var x, y := Off(durations[0]), Off(durations[1]);
    (x > 0.0 && y > 0.0 && x + y > 0.5) || (x < 0.0 && y < 0.0 && x + y < -0.5)
  }

  /** A charge has at most two raw durations, its usage's and its keyword's. It is within half a
      microsecond of their sum if and only if it does not stray: always, if it has only one. */
  lemma HalfIffNotStray(durations: seq<real>)
    requires |durations| <= 2
    ensures Near(RecordedMicroseconds(durations), durations, 0.5) <==> !Strays(durations)
  {
    if |durations| == 2 {
      var x, y := durations[0], durations[1];
      assert durations == [x, y];
      OffIsHalf(x);
      OffIsHalf(y);
      RecordedOfTwo(x, y);
    } else if |durations| == 1 {
      assert durations == [durations[0]];
      OffIsHalf(durations[0]);
      RecordedOfOne(durations[0]);
    } else {
      RecordedOfOne(0.0);
    }
    hide Microseconds, RecordedMicroseconds, TotalSeconds;
  }

  /** No charge of the list has more than its two raw durations, or strays. */
  predicate NoneStrays(paid: seq<seq<real>>) {
    forall i :: 0 <= i < |paid| ==> |paid[i]| <= 2 && !Strays(paid[i])
  }

  lemma NotStrayingAddsUp(paid: seq<seq<real>>)
    requires NoneStrays(paid)
    ensures Near(RecordedMicroseconds(Flat(paid)), Flat(paid), 0.5 * |paid| as real)
  {
    forall i | 0 <= i < |paid|
      ensures Near(RecordedMicroseconds(paid[i]), paid[i], 0.5)
    {
      HalfIffNotStray(paid[i]);
    }
    HalvesAddUp(paid);
  }

  /** Half a microsecond per accepted charge, for every run in which no charge strays. */
  lemma HalfPerCharge(budget: RunBudget, raws: seq<RawCall>)
    requires budget.Valid() && NoneStrays(AccountOf(budget, raws).paid)
    ensures var paid := AccountOf(budget, raws).paid;
            Near(Run(Fresh(budget), AllLowered(raws)).usage.durationMicros, Flat(paid), 0.5 * |paid| as real)
  {
    hide AccountAfter, Step, Near, NoneStrays;
    RunRecords(budget, raws);
    NotStrayingAddsUp(AccountOf(budget, raws).paid);
  }

  lemma OffIsHalf(x: real)
    ensures -0.5 <= Off(x) <= 0.5
  {
    RoundHalfEvenIsNearest(x * 1000000.0, Microseconds(x));
  }

  /** A charge given both as a usage and as a keyword, 0.6 microseconds each: two whole
      microseconds are recorded for 1.2. */
  lemma TwoRoundingsStray()
    ensures var raw := RawCharge(Some(RawUsage(ZERO, 0.0000006)), [(DurationSeconds, Number(0.0000006))]);
            && Mergeable(raw) && Durations(raw) == [0.0000006, 0.0000006]
            && Merge(raw).durationMicros == 2 && !Near(2, Durations(raw), 0.5)
  {
    hide Merge;
    var raw := RawCharge(Some(RawUsage(ZERO, 0.0000006)), [(DurationSeconds, Number(0.0000006))]);
    assert raw.keywords[..0] == [] && KeywordDurations([]) == [];
    assert Durations(raw) == [0.0000006, 0.0000006];
    MergeRoundsEach(raw);
    hide Microseconds, RecordedMicroseconds, TotalSeconds, Durations, Mergeable;
    TwiceSixTenths();
  }

  lemma TwiceSixTenths()
    ensures RecordedMicroseconds([0.0000006, 0.0000006]) == 2 && !Near(2, [0.0000006, 0.0000006], 0.5)
  {
    hide Microseconds, RecordedMicroseconds, TotalSeconds;
    SixTenths();
    RecordedOfOne(0.0000006);
    RecordedConcat([0.0000006], [0.0000006]);
    assert [0.0000006, 0.0000006] == [0.0000006] + [0.0000006];
  }

  lemma SixTenths()
    ensures Microseconds(0.0000006) == 1
  {
    RoundHalfEvenIsNearest(0.6, 1);
    assert 0.0000006 * 1000000.0 == 0.6;
  }
}
