/** Whole runs of the budget ledger: any interleaving of the atomic calls of any number of
    clients. The lock makes each call atomic, so an interleaving is a list of calls. */
module LedgerRuns {
  import opened Wrappers
  import opened Identifiers
  import opened Usage
  import opened Ledgers

  datatype Call =
    | CallConsume(charge: BudgetUsage)
    | CallReserve(charge: BudgetUsage)
    | CallCommit(reservation: Reservation, actual: Option<BudgetUsage>)
    | CallRelease(reservation: Reservation)

  /** What one call did, read off its return value only. */
  datatype Effect = Effect(charged: seq<BudgetUsage>, granted: seq<Reservation>, settled: seq<Reservation>)

  function Step(l: Ledger, call: Call): Ledger {
    match call
    case CallConsume(charge) => Consume(l, charge).0
    case CallReserve(charge) => Reserve(l, charge).0
    case CallCommit(r, actual) => Commit(l, r, actual).0
    case CallRelease(r) => Release(l, r).0
  }

  function Observed(l: Ledger, call: Call): Effect {
    match call
    case CallConsume(charge) =>
      if Consume(l, charge).1.Ok? then Effect([charge], [], []) else Effect([], [], [])
    case CallReserve(charge) =>
      var r := Reserve(l, charge).1;
      if r.Ok? then Effect([], [r.value], []) else Effect([], [], [])
    case CallCommit(r, actual) =>
      if Commit(l, r, actual).1.Ok? then Effect([GetOr(actual, r.usage)], [], [r]) else Effect([], [], [])
    case CallRelease(r) =>
      if Release(l, r).1.Ok? then Effect([], [], [r]) else Effect([], [], [])
  }

  function Run(l: Ledger, calls: seq<Call>): Ledger {
    if calls == [] then l else Step(Run(l, calls[..|calls| - 1]), calls[|calls| - 1])
  }

  /** Everything charged, granted and settled during a run, in order. */
  function Log(l: Ledger, calls: seq<Call>): Effect {
    if calls == [] then Effect([], [], [])
    else
      var earlier := Log(l, calls[..|calls| - 1]);
      var last := Observed(Run(l, calls[..|calls| - 1]), calls[|calls| - 1]);
      Effect(earlier.charged + last.charged, earlier.granted + last.granted, earlier.settled + last.settled)
  }

  // ----- The invariant -----

  predicate StrippedIds(items: seq<Reservation>) {
    forall i :: 0 <= i < |items| ==> items[i].id != [] && Stripped(items[i].id)
  }

  predicate WellFormed(l: Ledger) {
    && l.reserved == Sum(Usages(l.reservations))
    && DistinctIds(l.reservations)
    && l.next >= |l.reservations| + 1
    && StrippedIds(l.reservations)
  }

  predicate Safe(l: Ledger) {
    Within(l.budget, Add(l.usage, l.reserved))
  }

  lemma ReservationIdIsStripped(n: nat)
    ensures ReservationId(n) != [] && Stripped(ReservationId(n))
  {
  }

  lemma RemoveKeepsIds(reservations: seq<Reservation>, i: nat)
    requires DistinctIds(reservations) && StrippedIds(reservations) && i < |reservations|
    ensures DistinctIds(Remove(reservations, i)) && StrippedIds(Remove(reservations, i))
  {
    var rest := Remove(reservations, i);
    assert forall k :: 0 <= k < |rest| ==> rest[k] == reservations[if k < i then k else k + 1];
    hide Remove, Stripped;
  }

  lemma UsagesOfRest(reservations: seq<Reservation>, i: nat)
    requires i < |reservations|
    ensures Usages(Remove(reservations, i)) == Usages(reservations)[..i] + Usages(reservations)[i + 1..]
  {
  }

  /** A live reservation is covered by what is reserved, and closing it leaves exactly the rest. */
  lemma CloseLive(l: Ledger, i: nat)
    requires WellFormed(l) && i < |l.reservations|
    ensures Sub(l.reserved, l.reservations[i].usage) == Some(Sum(Usages(Remove(l.reservations, i))))
  {
    hide Sum, Sub, Remove, DistinctIds, StrippedIds;
    SumWithout(Usages(l.reservations), i);
    UsagesOfRest(l.reservations, i);
  }

  lemma WithinIsMonotone(b: RunBudget, big: BudgetUsage, small: BudgetUsage)
    requires Within(b, big) && Dominates(big, small)
    ensures Within(b, small)
  {
  }

  /** `a + (b - c) + x` and `(a + x) + (b - c)` are the same vector. */
  lemma Rearranged(a: BudgetUsage, rest: BudgetUsage, x: BudgetUsage)
    ensures Add(Add(a, rest), x) == Add(Add(a, x), rest)
    ensures Add(Add(a, rest), x) == Add(a, Add(rest, x))
  {
  }

  // ----- One call -----

  /** Exactly when each call is accepted. A refused call returns the ledger unchanged. */
  lemma AcceptanceIsExact(l: Ledger, charge: BudgetUsage)
    ensures Consume(l, charge).1.Ok? <==> Within(l.budget, Add(Add(l.usage, l.reserved), charge))
    ensures Reserve(l, charge).1.Ok? <==> Within(l.budget, Add(Add(l.usage, l.reserved), charge))
    ensures Consume(l, charge).1.Err? ==> Consume(l, charge).0 == l
    ensures Reserve(l, charge).1.Err? ==> Reserve(l, charge).0 == l
  {
    CheckIsExact(l, charge, None);
  }

  lemma RequireIsMembership(l: Ledger, r: Reservation)
    requires WellFormed(l)
    ensures RequireReservation(l, r).None? <==> r in l.reservations
  {
  }

  lemma ClosingIsExact(l: Ledger, r: Reservation, actual: Option<BudgetUsage>)
    requires WellFormed(l)
    ensures r in l.reservations ==> Dominates(l.reserved, r.usage)
    ensures Release(l, r).1.Ok? <==> r in l.reservations
    ensures Commit(l, r, actual).1.Ok? <==>
            (r in l.reservations
             && Within(l.budget, Add(Add(l.usage, GetOr(actual, r.usage)), Sub(l.reserved, r.usage).value)))
    ensures Release(l, r).1.Err? ==> Release(l, r).0 == l
    ensures Commit(l, r, actual).1.Err? ==> Commit(l, r, actual).0 == l
  {
    RequireIsMembership(l, r);
    if r in l.reservations {
      CloseLive(l, IndexOf(l.reservations, r.id));
      CheckIsExact(l, GetOr(actual, r.usage), Some(r.usage));
      Rearranged(l.usage, Sub(l.reserved, r.usage).value, GetOr(actual, r.usage));
    }
  }

  lemma ZeroIsNeutral(u: BudgetUsage)
    ensures Add(ZERO, u) == u
  {
  }

  lemma SumOfOne(u: BudgetUsage)
    ensures Sum([u]) == u && Sum([]) == ZERO
  {
  }

  lemma UsageOfOne(r: Reservation)
    ensures Usages([r]) == [r.usage] && Usages([]) == []
    ensures Sum(Usages([r])) == r.usage && Sum(Usages([])) == ZERO
  {
  }

  lemma LiveIsFound(l: Ledger, r: Reservation)
    requires WellFormed(l) && r in l.reservations
    ensures var i := IndexOf(l.reservations, r.id); i < |l.reservations| && l.reservations[i] == r
  {
    RequireIsMembership(l, r);
    hide WellFormed;
  }

  lemma ClosingKeepsWellFormed(l: Ledger, r: Reservation)
    requires WellFormed(l) && r in l.reservations
    ensures IndexOf(l.reservations, r.id) < |l.reservations| && Sub(l.reserved, r.usage).Some?
    ensures WellFormed(l.(reservations := Remove(l.reservations, IndexOf(l.reservations, r.id)), reserved := Sub(l.reserved, r.usage).value))
    ensures Add(Sub(l.reserved, r.usage).value, r.usage) == l.reserved
  {
    hide Sum, Sub, Add, Usages, Remove, DistinctIds, StrippedIds, IndexOf;
    LiveIsFound(l, r);
    var i := IndexOf(l.reservations, r.id);
    CloseLive(l, i);
    RemoveKeepsIds(l.reservations, i);
  }

  /** Usage and reserved moved by exactly what the call reported, and the limits did not. */
  predicate MovesBy(l: Ledger, after: Ledger, e: Effect) {
    && after.budget == l.budget
    && after.usage == Add(l.usage, Sum(e.charged))
    && Add(after.reserved, Sum(Usages(e.settled))) == Add(l.reserved, Sum(Usages(e.granted)))
  }

  lemma UnchangedMovesByNothing(l: Ledger)
    ensures MovesBy(l, l, Effect([], [], []))
  {
  }

  lemma ConsumeKeepsInvariant(l: Ledger, charge: BudgetUsage)
    requires WellFormed(l) && Safe(l)
    ensures WellFormed(Consume(l, charge).0) && Safe(Consume(l, charge).0)
    ensures MovesBy(l, Consume(l, charge).0, Observed(l, CallConsume(charge)))
  {
    UnchangedMovesByNothing(l);
    AcceptanceIsExact(l, charge);
    Rearranged(l.usage, l.reserved, charge);
    SumOfOne(charge);
  }

  lemma CommitKeepsInvariant(l: Ledger, r: Reservation, actual: Option<BudgetUsage>)
    requires WellFormed(l) && Safe(l)
    ensures WellFormed(Commit(l, r, actual).0) && Safe(Commit(l, r, actual).0)
    ensures MovesBy(l, Commit(l, r, actual).0, Observed(l, CallCommit(r, actual)))
  {
    UnchangedMovesByNothing(l);
    ClosingIsExact(l, r, actual);
    if Commit(l, r, actual).1.Ok? {
      ClosingKeepsWellFormed(l, r);
      SumOfOne(GetOr(actual, r.usage));
      UsageOfOne(r);
      AddIsCommutative(l.reserved, ZERO);
    }
  }

  lemma ReleaseKeepsInvariant(l: Ledger, r: Reservation)
    requires WellFormed(l) && Safe(l)
    ensures WellFormed(Release(l, r).0) && Safe(Release(l, r).0)
    ensures MovesBy(l, Release(l, r).0, Observed(l, CallRelease(r)))
  {
    UnchangedMovesByNothing(l);
    ClosingIsExact(l, r, None);
    if Release(l, r).1.Ok? {
      ClosingKeepsWellFormed(l, r);
      WithinIsMonotone(l.budget, Add(l.usage, l.reserved), Add(l.usage, Release(l, r).0.reserved));
      UsageOfOne(r);
      AddIsCommutative(l.reserved, ZERO);
      AddIsCommutative(l.usage, ZERO);
    }
  }

  lemma ReserveKeepsInvariant(l: Ledger, charge: BudgetUsage)
    requires WellFormed(l) && Safe(l)
    ensures WellFormed(Reserve(l, charge).0) && Safe(Reserve(l, charge).0)
    ensures MovesBy(l, Reserve(l, charge).0, Observed(l, CallReserve(charge)))
  {
    UnchangedMovesByNothing(l);
    var r := Reserve(l, charge);
    if r.1.Ok? {
      AcceptanceIsExact(l, charge);
      Rearranged(l.usage, l.reserved, charge);
      SumOfAppended(l.reservations, r.1.value);
      ReservationIdIsStripped(FreeNumber(l.reservations, l.next));
      assert forall i :: 0 <= i < |l.reservations| ==> l.reservations[i].id != r.1.value.id;
      UsageOfOne(r.1.value);
      AddIsCommutative(r.0.reserved, ZERO);
      AddIsCommutative(l.usage, ZERO);
    }
  }

  /** Every call keeps the invariant, and moves usage and reserved by exactly what it reported. */
  lemma CallKeepsInvariant(l: Ledger, call: Call)
    requires WellFormed(l) && Safe(l)
    ensures WellFormed(Step(l, call)) && Safe(Step(l, call))
    ensures MovesBy(l, Step(l, call), Observed(l, call))
  {
    match call
    case CallConsume(charge) => ConsumeKeepsInvariant(l, charge);
    case CallReserve(charge) => ReserveKeepsInvariant(l, charge);
    case CallCommit(r, actual) => CommitKeepsInvariant(l, r, actual);
    case CallRelease(r) => ReleaseKeepsInvariant(l, r);
  }

  // ----- Whole runs -----

  lemma {:induction false} CallsKeepInvariant(l: Ledger, calls: seq<Call>)
    requires WellFormed(l) && Safe(l)
    ensures WellFormed(Run(l, calls)) && Safe(Run(l, calls))
    ensures MovesBy(l, Run(l, calls), Log(l, calls))
  {
    if calls == [] {
      UnchangedMovesByNothing(l);
    } else {
      var earlier, last := calls[..|calls| - 1], calls[|calls| - 1];
      CallsKeepInvariant(l, earlier);
      CallKeepsInvariant(Run(l, earlier), last);
      MovesCompose(l, Run(l, earlier), Run(l, calls), Log(l, earlier), Observed(Run(l, earlier), last));
    }
  }

  /** Two reported movements in a row are one movement that reports both. */
  lemma MovesCompose(l: Ledger, middle: Ledger, end: Ledger, a: Effect, b: Effect)
    requires MovesBy(l, middle, a) && MovesBy(middle, end, b)
    ensures MovesBy(l, end, Effect(a.charged + b.charged, a.granted + b.granted, a.settled + b.settled))
  {
    SumOfConcatenation(a.charged, b.charged);
    UsagesOfConcatenation(a.granted, b.granted);
    UsagesOfConcatenation(a.settled, b.settled);
    AddIsAssociative(l.usage, Sum(a.charged), Sum(b.charged));
    Balance(l.reserved, middle.reserved, end.reserved,
            Sum(Usages(a.granted)), Sum(Usages(a.settled)), Sum(Usages(b.granted)), Sum(Usages(b.settled)));
  }

  lemma UsagesOfConcatenation(a: seq<Reservation>, b: seq<Reservation>)
    ensures Sum(Usages(a + b)) == Add(Sum(Usages(a)), Sum(Usages(b)))
  {
    hide Sum, Add;
    assert Usages(a + b) == Usages(a) + Usages(b);
    SumOfConcatenation(Usages(a), Usages(b));
  }

  /** Two balanced movements compose into one. */
  lemma Balance(start: BudgetUsage, middle: BudgetUsage, end: BudgetUsage,
                granted: BudgetUsage, settled: BudgetUsage, granted': BudgetUsage, settled': BudgetUsage)
    requires Add(middle, settled) == Add(start, granted)
    requires Add(end, settled') == Add(middle, granted')
    ensures Add(end, Add(settled, settled')) == Add(start, Add(granted, granted'))
  {
  }

  lemma FreshIsWellFormed(budget: RunBudget)
    ensures WellFormed(Fresh(budget))
  {
  }

  lemma FreshIsSafe(budget: RunBudget)
    requires budget.Valid()
    ensures Safe(Fresh(budget))
  {
  }

  /** Some interleaving of calls on a fresh ledger ends in this ledger, having reported this. */
  ghost predicate Reached(budget: RunBudget, l: Ledger, log: Effect) {
    budget.Valid() && exists calls :: l == Run(Fresh(budget), calls) && log == Log(Fresh(budget), calls)
  }

  /** Usage is the sum of the accepted charges, reserved is the sum of what is still
      outstanding, what was granted is what was settled and what is outstanding, and usage and
      reserved together stay within the limit in all seven dimensions. */
  predicate Conserved(budget: RunBudget, l: Ledger, log: Effect) {
    && l.budget == budget
    && l.usage == Sum(log.charged)
    && l.reserved == Sum(Usages(l.reservations))
    && Add(l.reserved, Sum(Usages(log.settled))) == Sum(Usages(log.granted))
    && Within(budget, Add(l.usage, l.reserved))
    && WellFormed(l)
  }

  /** Conservation and safety, for every run of every number of clients on a fresh ledger. */
  lemma ConservationAndSafety(budget: RunBudget, l: Ledger, log: Effect)
    requires Reached(budget, l, log)
    ensures Conserved(budget, l, log)
  {
    hide Run, Log;
    var calls :| l == Run(Fresh(budget), calls) && log == Log(Fresh(budget), calls);
    FreshIsWellFormed(budget);
    FreshIsSafe(budget);
    CallsKeepInvariant(Fresh(budget), calls);
    ZeroIsNeutral(Sum(log.charged));
    ZeroIsNeutral(Sum(Usages(log.granted)));
  }

  // ----- A reservation is a guarantee -----

  predicate Closes(call: Call, id: string) {
    (call.CallCommit? || call.CallRelease?) && call.reservation.id == id
  }

  lemma LiveSurvivesStep(l: Ledger, call: Call, r: Reservation)
    requires WellFormed(l) && r in l.reservations && !Closes(call, r.id)
    ensures r in Step(l, call).reservations
  {
  }

  lemma {:induction false} LiveSurvivesRun(l: Ledger, calls: seq<Call>, r: Reservation)
    requires WellFormed(l) && Safe(l) && r in l.reservations
    requires forall i :: 0 <= i < |calls| ==> !Closes(calls[i], r.id)
    ensures r in Run(l, calls).reservations
  {
    if calls != [] {
      var earlier := calls[..|calls| - 1];
      LiveSurvivesRun(l, earlier, r);
      CallsKeepInvariant(l, earlier);
      LiveSurvivesStep(Run(l, earlier), calls[|calls| - 1], r);
    }
  }

  /** Some interleaving of calls that does not close this reservation leads from one ledger to
      the other. */
  ghost predicate Meanwhile(l: Ledger, later: Ledger, id: string) {
    exists calls :: later == Run(l, calls) && forall i :: 0 <= i < |calls| ==> !Closes(calls[i], id)
  }

  /** Whatever other clients do after a reservation is granted, its holder can commit any
      amount up to what was reserved, or release it and return exactly that amount. */
  lemma ReservationIsGuarantee(l: Ledger, later: Ledger, r: Reservation, actual: BudgetUsage)
    requires WellFormed(l) && Safe(l) && r in l.reservations
    requires Meanwhile(l, later, r.id) && Dominates(r.usage, actual)
    ensures Commit(later, r, Some(actual)).1 == Ok(Add(later.usage, actual))
    ensures Commit(later, r, None).1 == Ok(Add(later.usage, r.usage))
    ensures Release(later, r).1.Ok? && Add(Release(later, r).1.value, r.usage) == later.reserved
    ensures r !in Release(later, r).0.reservations
  {
    ReservationSurvives(l, later, r);
    LiveIsCommittable(later, r, actual);
    LiveIsCommittable(later, r, r.usage);
    ClosingIsExact(later, r, None);
    CloseLive(later, IndexOf(later.reservations, r.id));
  }

  lemma ReservationSurvives(l: Ledger, later: Ledger, r: Reservation)
    requires WellFormed(l) && Safe(l) && r in l.reservations && Meanwhile(l, later, r.id)
    ensures WellFormed(later) && Safe(later) && r in later.reservations
  {
    hide Run;
    var calls :| later == Run(l, calls) && forall i :: 0 <= i < |calls| ==> !Closes(calls[i], r.id);
    LiveSurvivesRun(l, calls, r);
    CallsKeepInvariant(l, calls);
  }

  lemma LiveIsCommittable(l: Ledger, r: Reservation, paid: BudgetUsage)
    requires WellFormed(l) && Safe(l) && r in l.reservations && Dominates(r.usage, paid)
    ensures Commit(l, r, Some(paid)).1.Ok? && (paid == r.usage ==> Commit(l, r, None).1.Ok?)
  {
    ClosingIsExact(l, r, Some(paid));
    ClosingIsExact(l, r, None);
    var rest := Sub(l.reserved, r.usage).value;
    WithinIsMonotone(l.budget, Add(l.usage, l.reserved), Add(Add(l.usage, paid), rest));
  }

  function Releases(order: seq<Reservation>): seq<Call> {
    seq(|order|, i requires 0 <= i < |order| => CallRelease(order[i]))
  }

  /** Releasing every live reservation, in any order at all, restores an empty reserve. */
  lemma {:induction false} ReleasingAllRestoresZero(l: Ledger, order: seq<Reservation>)
    requires WellFormed(l) && Safe(l)
    requires multiset(order) == multiset(l.reservations)
    ensures Run(l, Releases(order)).reserved == ZERO
    ensures Run(l, Releases(order)).reservations == []
    ensures Run(l, Releases(order)).usage == l.usage
  {
    ReleasingPrefix(l, order, |order|);
    assert Releases(order)[..|order|] == Releases(order);
    assert order[|order|..] == [];
    var end := Run(l, Releases(order));
    assert |end.reservations| == |multiset(end.reservations)|;
    assert Usages([]) == [];
  }

  lemma RemoveFromMultiset(reservations: seq<Reservation>, i: nat)
    requires i < |reservations|
    ensures multiset(Remove(reservations, i)) == multiset(reservations) - multiset{reservations[i]}
  {
    assert reservations == reservations[..i] + [reservations[i]] + reservations[i + 1..];
  }

  lemma {:induction false} ReleasingPrefix(l: Ledger, order: seq<Reservation>, n: nat)
    requires WellFormed(l) && Safe(l) && n <= |order|
    requires multiset(order) == multiset(l.reservations)
    ensures var after := Run(l, Releases(order)[..n]);
            && WellFormed(after) && Safe(after)
            && after.usage == l.usage
            && multiset(after.reservations) == multiset(order[n..])
  {
    hide Step, WellFormed, Safe;
    CallsKeepInvariant(l, Releases(order)[..n]);
    if n == 0 {
      assert order[0..] == order;
    } else {
      var prefix := Releases(order)[..n];
      assert prefix[..n - 1] == Releases(order)[..n - 1];
      ReleasingPrefix(l, order, n - 1);
      var before, r := Run(l, Releases(order)[..n - 1]), order[n - 1];
      assert order[n - 1..] == [r] + order[n..];
      assert r in multiset(before.reservations);
      ReleaseDropsOne(before, r);
      assert prefix[n - 1] == CallRelease(r);
      assert multiset(order[n - 1..]) == multiset{r} + multiset(order[n..]);
    }
  }

  lemma ReleaseDropsOne(l: Ledger, r: Reservation)
    requires WellFormed(l) && r in l.reservations
    ensures Step(l, CallRelease(r)).usage == l.usage
    ensures multiset(Step(l, CallRelease(r)).reservations) == multiset(l.reservations) - multiset{r}
  {
    ClosingIsExact(l, r, None);
    RequireIsMembership(l, r);
    RemoveFromMultiset(l.reservations, IndexOf(l.reservations, r.id));
  }

  // ----- Reservation identifiers -----

  predicate NumberedBelow(id: string, n: nat) {
    exists k: nat :: k < n && id == ReservationId(k)
  }

  /** Every live identifier carries a number below the next one. */
  predicate Issued(l: Ledger) {
    forall i :: 0 <= i < |l.reservations| ==> NumberedBelow(l.reservations[i].id, l.next)
  }

  lemma NumberedBelowMore(id: string, n: nat, m: nat)
    requires NumberedBelow(id, n) && n <= m
    ensures NumberedBelow(id, m)
  {
    var k: nat :| k < n && id == ReservationId(k);
  }

  lemma RemovalKeepsNumbers(reservations: seq<Reservation>, k: nat, n: nat)
    requires k < |reservations| && forall i :: 0 <= i < |reservations| ==> NumberedBelow(reservations[i].id, n)
    ensures forall i :: 0 <= i < |Remove(reservations, k)| ==> NumberedBelow(Remove(reservations, k)[i].id, n)
  {
    var rest := Remove(reservations, k);
    assert forall i :: 0 <= i < |rest| ==> rest[i] == reservations[if i < k then i else i + 1];
    hide Remove, NumberedBelow;
  }

  lemma ReservingKeepsIssued(l: Ledger, charge: BudgetUsage)
    requires Issued(l)
    ensures Issued(Reserve(l, charge).0)
  {
    hide Check;
    var after := Reserve(l, charge).0;
    forall i | 0 <= i < |l.reservations|
      ensures NumberedBelow(l.reservations[i].id, after.next)
    {
      NumberedBelowMore(l.reservations[i].id, l.next, after.next);
    }
    if after != l {
      assert after.reservations[|l.reservations|].id == ReservationId(after.next - 1);
      assert NumberedBelow(after.reservations[|l.reservations|].id, after.next);
    }
  }

  /** No call lets go of that, from whatever state the ledger started. */
  lemma CallKeepsIssued(l: Ledger, call: Call)
    requires Issued(l)
    ensures Issued(Step(l, call))
  {
    match call
    case CallConsume(_) =>
    case CallReserve(charge) => ReservingKeepsIssued(l, charge);
    case _ =>
      var k := IndexOf(l.reservations, call.reservation.id);
      if k < |l.reservations| {
        RemovalKeepsNumbers(l.reservations, k, l.next);
      }
      hide Check, NumberedBelow, Remove, Sub, Add, IndexOf;
  }

  /** Every live reservation was issued by this ledger, the numbers issued are those below the
      next one, and each once. */
  predicate Accounted(l: Ledger, issued: seq<Reservation>) {
    && DistinctIds(issued)
    && l.next == |issued| + 1
    && (forall i :: 0 <= i < |issued| ==> NumberedBelow(issued[i].id, l.next))
    && (forall r :: r in l.reservations ==> r in issued)
  }

  lemma NextIsFree(l: Ledger, issued: seq<Reservation>)
    requires Accounted(l, issued)
    ensures FreeNumber(l.reservations, l.next) == l.next
  {
    NextIsUnissued(issued, l.next);
    forall i | 0 <= i < |l.reservations|
      ensures l.reservations[i].id != ReservationId(l.next)
    {
      assert l.reservations[i] in issued;
    }
  }

  lemma CallKeepsAccounted(l: Ledger, issued: seq<Reservation>, call: Call)
    requires Accounted(l, issued)
    ensures Accounted(Step(l, call), issued + Observed(l, call).granted)
  {
    var more := issued + Observed(l, call).granted;
    assert forall r :: r in issued ==> r in more;
    if call.CallReserve? && Reserve(l, call.charge).1.Ok? {
      NextIsFree(l, issued);
      NextIsUnissued(issued, l.next);
      assert more[|issued|].id == ReservationId(l.next);
      assert NumberedBelow(more[|issued|].id, l.next + 1);
      forall i | 0 <= i < |issued|
        ensures NumberedBelow(more[i].id, l.next + 1)
      {
        assert NumberedBelow(issued[i].id, l.next);
      }
    } else {
      assert more == issued;
    }
  }

  /** Without imports the search for an identifier never collides, and no identifier is
      ever issued twice during a run. */
  lemma {:induction false} IdentifiersAreNeverReissued(budget: RunBudget, calls: seq<Call>)
    ensures DistinctIds(Log(Fresh(budget), calls).granted)
    ensures Accounted(Run(Fresh(budget), calls), Log(Fresh(budget), calls).granted)
    ensures FreeNumber(Run(Fresh(budget), calls).reservations, Run(Fresh(budget), calls).next) == Run(Fresh(budget), calls).next
  {
    if calls != [] {
      var earlier := calls[..|calls| - 1];
      IdentifiersAreNeverReissued(budget, earlier);
      CallKeepsAccounted(Run(Fresh(budget), earlier), Log(Fresh(budget), earlier).granted, calls[|calls| - 1]);
    }
    NextIsFree(Run(Fresh(budget), calls), Log(Fresh(budget), calls).granted);
  }

  lemma NextIsUnissued(issued: seq<Reservation>, next: nat)
    requires forall i :: 0 <= i < |issued| ==> NumberedBelow(issued[i].id, next)
    ensures forall i :: 0 <= i < |issued| ==> issued[i].id != ReservationId(next)
  {
    forall i | 0 <= i < |issued|
      ensures issued[i].id != ReservationId(next)
    {
      assert NumberedBelow(issued[i].id, next);
      var k: nat :| k < next && issued[i].id == ReservationId(k);
      if ReservationId(k) == ReservationId(next) {
        ReservationIdIsInjective(k, next);
      }
    }
  }

  // ----- What is reported as remaining -----

  function NatLeft(limit: nat, used: nat, held: nat): nat {
    if limit <= used + held then 0 else limit - used - held
  }

  function RealLeft(limit: real, used: real, held: real): (r: real)
    ensures r >= 0.0
  {
    RealMax(0.0, limit - used - held)
  }

  /** `BudgetSnapshot.remaining`: the constructor rounds the remaining seconds to the grid. */
  function Remaining(l: Ledger): BudgetUsage {
    var seconds := RealLeft(l.budget.maxDurationSeconds, Seconds(l.usage.durationMicros), Seconds(l.reserved.durationMicros));
    RoundIsMonotone(0.0, seconds * 1000000.0);
    Counters(
      NatLeft(l.budget.maxModelCalls, l.usage.modelCalls, l.reserved.modelCalls),
      NatLeft(l.budget.maxToolCalls, l.usage.toolCalls, l.reserved.toolCalls),
      NatLeft(l.budget.maxTotalTokens, l.usage.totalTokens, l.reserved.totalTokens),
      NatLeft(l.budget.maxArtifactBytes, l.usage.artifactBytes, l.reserved.artifactBytes),
      Microseconds(seconds),
      RealLeft(l.budget.maxCost, l.usage.cost, l.reserved.cost),
      NatLeft(l.budget.maxReplanningAttempts, l.usage.replanningAttempts, l.reserved.replanningAttempts))
  }

  /** Whatever is spent and reserved, spending everything a safe ledger reports as remaining is
      accepted if and only if its duration limit is less than half a microsecond past a whole one,
      or exactly half with an even number of whole microseconds left. */
  lemma RemainingIsSpendable(l: Ledger)
    requires Safe(l)
    ensures var limit := l.budget.maxDurationSeconds * 1000000.0;
            var fraction, whole := limit - limit.Floor as real, limit.Floor - l.usage.durationMicros - l.reserved.durationMicros;
            Consume(l, Remaining(l)).1.Ok? <==> fraction < 0.5 || (fraction == 0.5 && whole % 2 == 0)
  {
    hide Consume, Safe;
    RemainingFitsIffNotRoundedUp(l);
    var limit, held := l.budget.maxDurationSeconds * 1000000.0, l.usage.durationMicros + l.reserved.durationMicros;
    assert (limit - held as real).Floor == limit.Floor - held;
    RoundsDownIff(limit - held as real);
    LeftInMicroseconds(l);
  }

  lemma RoundsDownIff(x: real)
    ensures var fraction := x - x.Floor as real;
            RoundHalfEven(x) as real <= x <==> fraction < 0.5 || (fraction == 0.5 && x.Floor % 2 == 0)
  {
  }

  lemma LeftInMicroseconds(l: Ledger)
    requires Safe(l)
    ensures var left := l.budget.maxDurationSeconds * 1000000.0 - (l.usage.durationMicros + l.reserved.durationMicros) as real;
            && Remaining(l).durationMicros == RoundHalfEven(left)
            && (Seconds(Remaining(l).durationMicros) <= l.budget.maxDurationSeconds - Seconds(l.usage.durationMicros) - Seconds(l.reserved.durationMicros)
                <==> RoundHalfEven(left) as real <= left)
  {
    hide RoundHalfEven;
    var held := Add(l.usage, l.reserved);
    assert Amount(held, Duration) <= Limit(l.budget, Duration);
    StoredDurations(l.usage.durationMicros, l.reserved.durationMicros);
    var seconds := l.budget.maxDurationSeconds - Seconds(l.usage.durationMicros) - Seconds(l.reserved.durationMicros);
    assert seconds * 1000000.0 == l.budget.maxDurationSeconds * 1000000.0 - (l.usage.durationMicros + l.reserved.durationMicros) as real;
  }

  lemma RemainingFitsIffNotRoundedUp(l: Ledger)
    requires Safe(l)
    ensures Consume(l, Remaining(l)).1.Ok? <==>
            Seconds(Remaining(l).durationMicros) <= l.budget.maxDurationSeconds - Seconds(l.usage.durationMicros) - Seconds(l.reserved.durationMicros)
  {
    var held, left := Add(l.usage, l.reserved), Remaining(l);
    AcceptanceIsExact(l, left);
    StoredDurations(l.usage.durationMicros, l.reserved.durationMicros);
    StoredDurations(held.durationMicros, left.durationMicros);
    assert forall d: Dimension :: Amount(held, d) <= Limit(l.budget, d);
    assert Amount(held, ModelCalls) <= Limit(l.budget, ModelCalls) && Amount(held, ToolCalls) <= Limit(l.budget, ToolCalls);
    assert Amount(held, TotalTokens) <= Limit(l.budget, TotalTokens) && Amount(held, ArtifactBytes) <= Limit(l.budget, ArtifactBytes);
    assert Amount(held, Duration) <= Limit(l.budget, Duration) && Amount(held, Cost) <= Limit(l.budget, Cost);
    assert Amount(held, Replanning) <= Limit(l.budget, Replanning);
    forall d: Dimension | d != Duration
      ensures Amount(Add(held, left), d) <= Limit(l.budget, d)
    {
    }
    assert Within(l.budget, Add(held, left)) <==> Amount(Add(held, left), Duration) <= Limit(l.budget, Duration);
  }

  /** With a limit off the grid the report can overstate: 0.6 microseconds left are reported
      as one whole microsecond, and spending it is refused. */
  lemma RemainingMayOverstate()
    ensures exists l :: Safe(l) && WellFormed(l) && Consume(l, Remaining(l)).1.Err?
  {
    var l := Fresh(RunBudget(0, 0, 0, 0, 0.0000006, 0.0, 0));
    FreshIsWellFormed(l.budget);
    FreshIsSafe(l.budget);
    assert 0.0000006 * 1000000.0 == 0.6;
    RemainingIsSpendable(l);
    assert Safe(l) && WellFormed(l);
  }
}
