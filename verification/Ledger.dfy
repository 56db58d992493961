/** The budget ledger (`kernel/budget.py`): each operation as a function on ledger values,
    and the mutable `BudgetLedger` proved against those functions. */
module Ledgers {
  import opened Wrappers
  import opened Identifiers
  import opened Usage

  datatype RunBudget = RunBudget(
    maxModelCalls: nat,
    maxToolCalls: nat,
    maxTotalTokens: nat,
    maxArtifactBytes: nat,
    maxDurationSeconds: real,
    maxCost: real,
    maxReplanningAttempts: nat)
  {
    predicate Valid() {
      maxDurationSeconds >= 0.0 && maxCost >= 0.0
    }
  }

  const DEFAULT_BUDGET := RunBudget(32, 64, 100000, 1000000000, 3600.0, 0.0, 3)

  datatype Dimension = ModelCalls | ToolCalls | TotalTokens | ArtifactBytes | Duration | Cost | Replanning

  const DIMENSIONS: seq<Dimension> := [ModelCalls, ToolCalls, TotalTokens, ArtifactBytes, Duration, Cost, Replanning]

  function Amount(u: BudgetUsage, d: Dimension): real {
    match d
    case ModelCalls => u.modelCalls as real
    case ToolCalls => u.toolCalls as real
    case TotalTokens => u.totalTokens as real
    case ArtifactBytes => u.artifactBytes as real
    case Duration => Seconds(u.durationMicros)
    case Cost => u.cost
    case Replanning => u.replanningAttempts as real
  }

  function Limit(b: RunBudget, d: Dimension): real {
    match d
    case ModelCalls => b.maxModelCalls as real
    case ToolCalls => b.maxToolCalls as real
    case TotalTokens => b.maxTotalTokens as real
    case ArtifactBytes => b.maxArtifactBytes as real
    case Duration => b.maxDurationSeconds
    case Cost => b.maxCost
    case Replanning => b.maxReplanningAttempts as real
  }

  predicate Within(b: RunBudget, u: BudgetUsage) {
    forall d: Dimension :: Amount(u, d) <= Limit(b, d)
  }

  datatype Refusal =
    | Exhausted(dimension: Dimension, requested: real, remaining: real, limit: real)
    | CounterUnderflow
    | ReservationUnknown
    | ReservationMismatch
    | StateInvalid

  datatype Reservation = Reservation(id: string, usage: BudgetUsage)

  /** `reservations` is the insertion-ordered dictionary of live reservations. */
  datatype Ledger = Ledger(
    budget: RunBudget,
    usage: BudgetUsage,
    reserved: BudgetUsage,
    reservations: seq<Reservation>,
    next: nat)

  function Fresh(budget: RunBudget): Ledger {
    Ledger(budget, ZERO, ZERO, [], 1)
  }

  function Usages(reservations: seq<Reservation>): (r: seq<BudgetUsage>)
    ensures |r| == |reservations|
  {
    seq(|reservations|, i requires 0 <= i < |reservations| => reservations[i].usage)
  }

  /** Adding a reservation adds its usage to the total held. */
  lemma SumOfAppended(reservations: seq<Reservation>, r: Reservation)
    ensures Sum(Usages(reservations + [r])) == Add(Sum(Usages(reservations)), r.usage)
  {
    var all := Usages(reservations + [r]);
    assert all[..|all| - 1] == Usages(reservations) && all[|all| - 1] == r.usage;
  }

  predicate Live(reservations: seq<Reservation>, id: string) {
    exists i :: 0 <= i < |reservations| && reservations[i].id == id
  }

  predicate DistinctIds(reservations: seq<Reservation>) {
    forall i, j :: 0 <= i < j < |reservations| ==> reservations[i].id != reservations[j].id
  }

  function IndexOf(reservations: seq<Reservation>, id: string): (i: nat)
    ensures i <= |reservations|
    ensures i < |reservations| ==> reservations[i].id == id
    ensures i < |reservations| <==> Live(reservations, id)
    ensures forall j :: 0 <= j < i ==> reservations[j].id != id
  {
    if reservations == [] then 0
    else if reservations[0].id == id then 0
    else
      assert forall j :: 0 < j < |reservations| ==> reservations[j] == reservations[1..][j - 1];
      1 + IndexOf(reservations[1..], id)
  }

  function Remove<T>(s: seq<T>, i: nat): (r: seq<T>)
    requires i < |s|
    ensures |r| == |s| - 1
  {
    s[..i] + s[i + 1..]
  }

  // ----- The limit check -----

  function RealMax(a: real, b: real): real {
    if a < b then b else a
  }

  /** The first dimension, in the declared order, in which `held + charge` is over the limit. */
  function FirstExceeded(b: RunBudget, held: BudgetUsage, charge: BudgetUsage, dimensions: seq<Dimension>): Option<Refusal> {
    if dimensions == [] then None
    else
      var d := dimensions[0];
      if Amount(Add(held, charge), d) > Limit(b, d) then
        Some(Exhausted(d, Amount(Add(held, charge), d), RealMax(0.0, Limit(b, d) - Amount(held, d)), Limit(b, d)))
      else FirstExceeded(b, held, charge, dimensions[1..])
  }

  lemma {:induction false} FirstExceededIsExact(b: RunBudget, held: BudgetUsage, charge: BudgetUsage, dimensions: seq<Dimension>)
    ensures FirstExceeded(b, held, charge, dimensions).None? <==>
            forall d | d in dimensions :: Amount(Add(held, charge), d) <= Limit(b, d)
  {
    if dimensions != [] {
      FirstExceededIsExact(b, held, charge, dimensions[1..]);
      assert dimensions == [dimensions[0]] + dimensions[1..];
    }
  }

  /** `_check_locked`: the usage held against the budget excludes the reservation being
      committed, if any. */
  function Check(l: Ledger, charge: BudgetUsage, released: Option<BudgetUsage>): Option<Refusal> {
    var effective := if released.None? then Some(l.reserved) else Sub(l.reserved, released.value);
    if effective.None? then Some(CounterUnderflow)
    else FirstExceeded(l.budget, Add(l.usage, effective.value), charge, DIMENSIONS)
  }

  /** A charge passes exactly when usage, the other reservations and the charge together are
      within the limit in all seven dimensions. */
  lemma CheckIsExact(l: Ledger, charge: BudgetUsage, released: Option<BudgetUsage>)
    requires released.Some? ==> Dominates(l.reserved, released.value)
    ensures Check(l, charge, released).None? <==>
            var held := if released.None? then l.reserved else Sub(l.reserved, released.value).value;
            Within(l.budget, Add(Add(l.usage, held), charge))
  {
    var effective := if released.None? then l.reserved else Sub(l.reserved, released.value).value;
    FirstExceededIsExact(l.budget, Add(l.usage, effective), charge, DIMENSIONS);
    forall d: Dimension
      ensures d in DIMENSIONS
    {
      match d
      case ModelCalls => assert d == DIMENSIONS[0];
      case ToolCalls => assert d == DIMENSIONS[1];
      case TotalTokens => assert d == DIMENSIONS[2];
      case ArtifactBytes => assert d == DIMENSIONS[3];
      case Duration => assert d == DIMENSIONS[4];
      case Cost => assert d == DIMENSIONS[5];
      case Replanning => assert d == DIMENSIONS[6];
    }
  }

  // ----- Reservation numbers -----

  ghost predicate NumberedFrom(id: string, n: nat) {
    exists k: nat :: k >= n && id == ReservationId(k)
  }

  /** The live identifiers that a search starting at `n` can still collide with. */
  ghost function Collisions(reservations: seq<Reservation>, n: nat): set<string> {
    set r | r in reservations && NumberedFrom(r.id, n) :: r.id
  }

  lemma CollisionsShrink(reservations: seq<Reservation>, n: nat)
    requires Live(reservations, ReservationId(n))
    ensures Collisions(reservations, n + 1) < Collisions(reservations, n)
  {
    var i := IndexOf(reservations, ReservationId(n));
    assert reservations[i] in reservations && NumberedFrom(reservations[i].id, n);
    assert ReservationId(n) in Collisions(reservations, n);
    if NumberedFrom(ReservationId(n), n + 1) {
      var k: nat :| k >= n + 1 && ReservationId(n) == ReservationId(k);
      ReservationIdIsInjective(n, k);
    }
    assert forall id :: NumberedFrom(id, n + 1) ==> NumberedFrom(id, n);
  }

  /** The first number from `n` on whose identifier is not live. */
  function FreeNumber(reservations: seq<Reservation>, n: nat): (m: nat)
    ensures m >= n && !Live(reservations, ReservationId(m))
    ensures forall k :: n <= k < m ==> Live(reservations, ReservationId(k))
    decreases Collisions(reservations, n)
  {
    if Live(reservations, ReservationId(n)) then
      CollisionsShrink(reservations, n);
      FreeNumber(reservations, n + 1)
    else n
  }

  // ----- Operations -----

  function Consume(l: Ledger, charge: BudgetUsage): (Ledger, Result<BudgetUsage, Refusal>) {
    var refusal := Check(l, charge, None);
    if refusal.Some? then (l, Err(refusal.value))
    else
      var usage := Add(l.usage, charge);
      (l.(usage := usage), Ok(usage))
  }

  function Reserve(l: Ledger, charge: BudgetUsage): (Ledger, Result<Reservation, Refusal>) {
    var refusal := Check(l, charge, None);
    if refusal.Some? then (l, Err(refusal.value))
    else
      var number := FreeNumber(l.reservations, l.next);
      var reservation := Reservation(ReservationId(number), charge);
      (l.(reservations := l.reservations + [reservation], reserved := Add(l.reserved, charge), next := number + 1),
       Ok(reservation))
  }

  function RequireReservation(l: Ledger, r: Reservation): Option<Refusal> {
    var i := IndexOf(l.reservations, r.id);
    if i == |l.reservations| then Some(ReservationUnknown)
    else if l.reservations[i].usage != r.usage then Some(ReservationMismatch)
    else None
  }

  function Commit(l: Ledger, r: Reservation, actual: Option<BudgetUsage>): (Ledger, Result<BudgetUsage, Refusal>) {
    var charge := if actual.Some? then actual.value else r.usage;
    var refusal := RequireReservation(l, r);
    if refusal.Some? then (l, Err(refusal.value))
    else
      var exhausted := Check(l, charge, Some(r.usage));
      if exhausted.Some? then (l, Err(exhausted.value))
      else
        var usage := Add(l.usage, charge);
        (l.(reservations := Remove(l.reservations, IndexOf(l.reservations, r.id)),
            reserved := Sub(l.reserved, r.usage).value,
            usage := usage),
         Ok(usage))
  }

  function Release(l: Ledger, r: Reservation): (Ledger, Result<BudgetUsage, Refusal>) {
    var refusal := RequireReservation(l, r);
    if refusal.Some? then (l, Err(refusal.value))
    else
      var remaining := Sub(l.reserved, r.usage);
      if remaining.None? then (l, Err(CounterUnderflow))
      else
        (l.(reservations := Remove(l.reservations, IndexOf(l.reservations, r.id)), reserved := remaining.value),
         Ok(remaining.value))
  }

  // ----- State documents -----

  /** A decoded state document. Absent keys are `None`; a usage with a negative counter has
      already been refused by the decoder. */
  datatype Document = Document(
    version: int,
    budget: Option<RunBudget>,
    usage: Option<BudgetUsage>,
    reserved: Option<BudgetUsage>,
    reservations: seq<Reservation>,
    next: Option<int>)

  const STATE_VERSION := 1
  const MAX_RESERVATION_ID_LENGTH: nat := 256

  function Export(l: Ledger): Document {
    Document(STATE_VERSION, Some(l.budget), Some(l.usage), Some(l.reserved), l.reservations, Some(l.next))
  }

  predicate ReadableId(id: string) {
    Strip(id) != [] && |id| <= MAX_RESERVATION_ID_LENGTH
  }

  /** The imported reservations in document order, with stripped identifiers; `None` for an
      unreadable or repeated one. */
  function ReadReservations(items: seq<Reservation>): (r: Option<seq<Reservation>>)
    ensures r.Some? ==> |r.value| == |items| && DistinctIds(r.value)
  {
    if items == [] then Some([])
    else
      var earlier := ReadReservations(items[..|items| - 1]);
      var item := items[|items| - 1];
      if earlier.None? || !ReadableId(item.id) || Live(earlier.value, Strip(item.id)) then None
      else Some(earlier.value + [Reservation(Strip(item.id), item.usage)])
  }

  function GetOr<T>(o: Option<T>, default: T): T {
    if o.Some? then o.value else default
  }

  function IntMax(a: int, b: int): int {
    if a < b then b else a
  }

  function Import(l: Ledger, document: Document): (Ledger, Result<(), Refusal>) {
    var budget := GetOr(document.budget, DEFAULT_BUDGET);
    var usage := GetOr(document.usage, ZERO);
    var reserved := GetOr(document.reserved, ZERO);
    var reservations := ReadReservations(document.reservations);
    if document.version != STATE_VERSION || !budget.Valid() then (l, Err(StateInvalid))
    else if reservations.None? || Sum(Usages(reservations.value)) != reserved then (l, Err(StateInvalid))
    else
      var next := GetOr(document.next, |reservations.value| + 1);
      if next < 1 then (l, Err(StateInvalid))
      else (Ledger(budget, usage, reserved, reservations.value, IntMax(next, |reservations.value| + 1)), Ok(()))
  }

  // ----- The mutable ledger -----

  class BudgetLedger {
    var budget: RunBudget
    var usage: BudgetUsage
    var reserved: BudgetUsage
    var reservations: seq<Reservation>
    var next: nat

    function State(): Ledger
      reads this
    {
      Ledger(budget, usage, reserved, reservations, next)
    }

    constructor (budget: RunBudget)
      ensures State() == Fresh(budget)
    {
      this.budget := budget;
      usage, reserved, reservations, next := ZERO, ZERO, [], 1;
    }

    method CheckLocked(charge: BudgetUsage, released: Option<BudgetUsage>) returns (refusal: Option<Refusal>)
      ensures refusal == Check(State(), charge, released)
    {
      var effective := reserved;
      if released.Some? {
        var rest := Sub(reserved, released.value);
        if rest.None? {
          return Some(CounterUnderflow);
        }
        effective := rest.value;
      }
      var held := Add(usage, effective);
      var prospective := Add(held, charge);
      var i := 0;
      while i < |DIMENSIONS|
        invariant 0 <= i <= |DIMENSIONS|
        invariant Check(State(), charge, released) == FirstExceeded(budget, held, charge, DIMENSIONS[i..])
      {
        var d := DIMENSIONS[i];
        if Amount(prospective, d) > Limit(budget, d) {
          return Some(Exhausted(d, Amount(prospective, d), RealMax(0.0, Limit(budget, d) - Amount(held, d)), Limit(budget, d)));
        }
        i := i + 1;
      }
      return None;
    }

    method NextReservationId() returns (id: string)
      modifies this`next
      ensures id == ReservationId(FreeNumber(reservations, old(next)))
      ensures next == FreeNumber(reservations, old(next)) + 1
    {
      while Live(reservations, ReservationId(next))
        invariant FreeNumber(reservations, next) == FreeNumber(reservations, old(next))
        decreases Collisions(reservations, next)
      {
        CollisionsShrink(reservations, next);
        next := next + 1;
      }
      id := ReservationId(next);
      next := next + 1;
    }

    method ConsumeCharge(charge: BudgetUsage) returns (r: Result<BudgetUsage, Refusal>)
      modifies this
      ensures (State(), r) == Consume(old(State()), charge)
    {
      var refusal := CheckLocked(charge, None);
      if refusal.Some? {
        return Err(refusal.value);
      }
      usage := Add(usage, charge);
      return Ok(usage);
    }

    method ReserveCharge(charge: BudgetUsage) returns (r: Result<Reservation, Refusal>)
      modifies this
      ensures (State(), r) == Reserve(old(State()), charge)
    {
      var refusal := CheckLocked(charge, None);
      if refusal.Some? {
        return Err(refusal.value);
      }
      var id := NextReservationId();
      reservations := reservations + [Reservation(id, charge)];
      reserved := Add(reserved, charge);
      return Ok(Reservation(id, charge));
    }

    method CommitReservation(reservation: Reservation, actual: Option<BudgetUsage>) returns (r: Result<BudgetUsage, Refusal>)
      modifies this
      ensures (State(), r) == Commit(old(State()), reservation, actual)
    {
      var charge := if actual.Some? then actual.value else reservation.usage;
      var refusal := RequireReservation(State(), reservation);
      if refusal.Some? {
        return Err(refusal.value);
      }
      refusal := CheckLocked(charge, Some(reservation.usage));
      if refusal.Some? {
        return Err(refusal.value);
      }
      var rest := Sub(reserved, reservation.usage);
      reservations := Remove(reservations, IndexOf(reservations, reservation.id));
      reserved := rest.value;
      usage := Add(usage, charge);
      return Ok(usage);
    }

    method ReleaseReservation(reservation: Reservation) returns (r: Result<BudgetUsage, Refusal>)
      modifies this
      ensures (State(), r) == Release(old(State()), reservation)
    {
      var refusal := RequireReservation(State(), reservation);
      if refusal.Some? {
        return Err(refusal.value);
      }
      var remaining := Sub(reserved, reservation.usage);
      if remaining.None? {
        return Err(CounterUnderflow);
      }
      reservations := Remove(reservations, IndexOf(reservations, reservation.id));
      reserved := remaining.value;
      return Ok(reserved);
    }

    method ImportState(document: Document) returns (r: Result<(), Refusal>)
      modifies this
      ensures (State(), r) == Import(old(State()), document)
    {
      var budget' := GetOr(document.budget, DEFAULT_BUDGET);
      if document.version != STATE_VERSION || !budget'.Valid() {
        return Err(StateInvalid);
      }
      var restored, expected := ReadReservationItems(document.reservations);
      if restored.None? || expected != GetOr(document.reserved, ZERO) {
        return Err(StateInvalid);
      }
      var number := GetOr(document.next, |restored.value| + 1);
      if number < 1 {
        return Err(StateInvalid);
      }
      budget := budget';
      usage := GetOr(document.usage, ZERO);
      reserved := GetOr(document.reserved, ZERO);
      reservations := restored.value;
      next := IntMax(number, |restored.value| + 1);
      return Ok(());
    }
  }

  lemma NothingReserved()
    ensures Sum(Usages([])) == ZERO
  {
  }

  /** The loops of `import_state`: read every reservation and add up what they hold. */
  method ReadReservationItems(items: seq<Reservation>) returns (restored: Option<seq<Reservation>>, expected: BudgetUsage)
    ensures restored == ReadReservations(items)
    ensures restored.Some? ==> expected == Sum(Usages(restored.value))
  {
    hide Sum, Usages, Add, Strip, ReadableId, Live;
    var read: seq<Reservation> := [];
    expected := ZERO;
    assert items[..0] == [] && Sum(Usages(read)) == ZERO by { NothingReserved(); }
    for i := 0 to |items|
      invariant ReadReservations(items[..i]) == Some(read)
      invariant expected == Sum(Usages(read))
    {
      var item := items[i];
      assert items[..i + 1][..i] == items[..i];
      if !ReadableId(item.id) || Live(read, Strip(item.id)) {
        UnreadablePrefix(items, i + 1);
        return None, ZERO;
      }
      var longer := read + [Reservation(Strip(item.id), item.usage)];
      SumOfAppended(read, Reservation(Strip(item.id), item.usage));
      read, expected := longer, Add(expected, item.usage);
    }
    assert items[..|items|] == items;
    return Some(read), expected;
  }

  lemma {:induction false} UnreadablePrefix(items: seq<Reservation>, n: nat)
    requires n <= |items| && ReadReservations(items[..n]).None?
    ensures ReadReservations(items).None?
  {
    if n == |items| {
      assert items[..n] == items;
    } else {
      var shorter := items[..|items| - 1];
      assert shorter[..n] == items[..n];
      UnreadablePrefix(shorter, n);
    }
  }
}
