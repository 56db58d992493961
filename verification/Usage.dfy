/** Seven-dimensional budget usage and the whole-microsecond duration grid
    (`kernel/budget.py`). Seconds and costs are exact reals. A stored duration is always on
    the grid, so usage holds its whole microseconds; `StoredDurations` shows that this is
    the same thing as holding the seconds. */
module Usage {
  import opened Wrappers

  // ----- Rounding to the microsecond grid -----

  /** Python's `round`: to the nearest integer, a tie going to the even one. */
  function RoundHalfEven(x: real): int {
    var below := x.Floor;
    var fraction := x - below as real;
    if fraction < 0.5 then below
    else if fraction > 0.5 then below + 1
    else if below % 2 == 0 then below
    else below + 1
  }

  function Microseconds(seconds: real): int {
    RoundHalfEven(seconds * 1000000.0)
  }

  function Seconds(microseconds: int): real {
    microseconds as real / 1000000.0
  }

  /** The duration a constructor stores: rounded to whole microseconds. */
  function GridDuration(seconds: real): real {
    Seconds(Microseconds(seconds))
  }

  predicate OnGrid(seconds: real) {
    GridDuration(seconds) == seconds
  }

  /** The rounded value is a nearest integer, and on a tie it is the even neighbour. These
      two facts determine it. */
  lemma RoundHalfEvenIsNearest(x: real, n: int)
    ensures n == RoundHalfEven(x) <==>
            (-0.5 <= x - n as real <= 0.5 && (x - n as real == 0.5 || x - n as real == -0.5 ==> n % 2 == 0))
  {
    var below := x.Floor;
    assert below as real <= x < below as real + 1.0;
    if -0.5 <= x - n as real <= 0.5 {
      assert n == below || n == below + 1;
    }
  }

  lemma RoundIsMonotone(x: real, y: real)
    requires x <= y
    ensures RoundHalfEven(x) <= RoundHalfEven(y)
  {
    RoundHalfEvenIsNearest(x, RoundHalfEven(x));
    RoundHalfEvenIsNearest(y, RoundHalfEven(y));
  }

  lemma WholeMicrosecondsSurvive(m: int)
    ensures Microseconds(Seconds(m)) == m
  {
    assert Seconds(m) * 1000000.0 == m as real;
  }

  /** Rounding a duration again changes nothing, so the repeated rounding of merging and
      construction equals one rounding, and nonnegative stays nonnegative. */
  lemma GridDurationIsIdempotent(seconds: real)
    ensures OnGrid(GridDuration(seconds))
    ensures GridDuration(GridDuration(seconds)) == GridDuration(seconds)
    ensures seconds >= 0.0 ==> GridDuration(seconds) >= 0.0
  {
    WholeMicrosecondsSurvive(Microseconds(seconds));
    if seconds >= 0.0 {
      RoundIsMonotone(0.0, seconds * 1000000.0);
    }
  }

  /** Seconds on the grid and whole microseconds are two views of one value. Comparing,
      adding and subtracting stored seconds, with the conversions and the constructor's
      rounding in between, is comparing, adding and subtracting microseconds. */
  lemma StoredDurations(a: int, b: int)
    ensures OnGrid(Seconds(a)) && Microseconds(Seconds(a)) == a
    ensures Seconds(a) < Seconds(b) <==> a < b
    ensures GridDuration(Seconds(Microseconds(Seconds(a)) + Microseconds(Seconds(b)))) == Seconds(a + b) == Seconds(a) + Seconds(b)
    ensures GridDuration(Seconds(Microseconds(Seconds(a)) - Microseconds(Seconds(b)))) == Seconds(a - b) == Seconds(a) - Seconds(b)
  {
    WholeMicrosecondsSurvive(a);
    WholeMicrosecondsSurvive(b);
    WholeMicrosecondsSurvive(a + b);
    WholeMicrosecondsSurvive(a - b);
  }

  function TotalSeconds(durations: seq<real>): real {
    if durations == [] then 0.0 else TotalSeconds(durations[..|durations| - 1]) + durations[|durations| - 1]
  }

  /** What a ledger records for a list of charged durations: each rounded, then summed in
      whole microseconds. */
  function RecordedMicroseconds(durations: seq<real>): int {
    if durations == [] then 0
    else RecordedMicroseconds(durations[..|durations| - 1]) + Microseconds(durations[|durations| - 1])
  }

  /** The recorded total of n charges is within n/2 microseconds of the true total. */
  lemma {:induction false} RecordedDurationDrift(durations: seq<real>)
    ensures -0.0000005 * (|durations| as real)
            <= Seconds(RecordedMicroseconds(durations)) - TotalSeconds(durations)
            <= 0.0000005 * (|durations| as real)
  {
    if durations != [] {
      var x := durations[|durations| - 1];
      RecordedDurationDrift(durations[..|durations| - 1]);
      RoundHalfEvenIsNearest(x * 1000000.0, Microseconds(x));
    }
  }

  // ----- Usage vectors -----

  datatype Counters = Counters(
    modelCalls: nat,
    toolCalls: nat,
    totalTokens: nat,
    artifactBytes: nat,
    durationMicros: nat,
    cost: real,
    replanningAttempts: nat)

  /** A constructed usage: no counter is negative. */
  type BudgetUsage = u: Counters | u.cost >= 0.0 witness Counters(0, 0, 0, 0, 0, 0.0, 0)

  const ZERO: BudgetUsage := Counters(0, 0, 0, 0, 0, 0.0, 0)

  /** Every counter of `a` is at least that of `b`: the negation of the source's `exceeds`. */
  predicate Dominates(a: Counters, b: Counters) {
    && a.modelCalls >= b.modelCalls
    && a.toolCalls >= b.toolCalls
    && a.totalTokens >= b.totalTokens
    && a.artifactBytes >= b.artifactBytes
    && a.durationMicros >= b.durationMicros
    && a.cost >= b.cost
    && a.replanningAttempts >= b.replanningAttempts
  }

  function Add(a: BudgetUsage, b: BudgetUsage): (r: BudgetUsage)
    ensures Dominates(r, a) && Dominates(r, b)
  {
    Counters(
      a.modelCalls + b.modelCalls,
      a.toolCalls + b.toolCalls,
      a.totalTokens + b.totalTokens,
      a.artifactBytes + b.artifactBytes,
      a.durationMicros + b.durationMicros,
      a.cost + b.cost,
      a.replanningAttempts + b.replanningAttempts)
  }

  /** Refused exactly when some counter would become negative; otherwise the inverse of
      addition. */
  function Sub(a: BudgetUsage, b: BudgetUsage): (r: Option<BudgetUsage>)
    ensures r.Some? <==> Dominates(a, b)
    ensures r.Some? ==> Add(r.value, b) == a
  {
    if !Dominates(a, b) then None
    else Some(Counters(
                a.modelCalls - b.modelCalls,
                a.toolCalls - b.toolCalls,
                a.totalTokens - b.totalTokens,
                a.artifactBytes - b.artifactBytes,
                a.durationMicros - b.durationMicros,
                a.cost - b.cost,
                a.replanningAttempts - b.replanningAttempts))
  }

  lemma AddIsCommutative(a: BudgetUsage, b: BudgetUsage)
    ensures Add(a, b) == Add(b, a)
    ensures Add(a, ZERO) == a
    ensures Sub(Add(a, b), b) == Some(a)
  {
  }

  lemma AddIsAssociative(a: BudgetUsage, b: BudgetUsage, c: BudgetUsage)
    ensures Add(Add(a, b), c) == Add(a, Add(b, c))
  {
  }

  function Sum(usages: seq<BudgetUsage>): BudgetUsage {
    if usages == [] then ZERO else Add(Sum(usages[..|usages| - 1]), usages[|usages| - 1])
  }

  lemma {:induction false} SumOfConcatenation(a: seq<BudgetUsage>, b: seq<BudgetUsage>)
    ensures Sum(a + b) == Add(Sum(a), Sum(b))
  {
    if b == [] {
      assert a + b == a;
      AddIsCommutative(Sum(a), ZERO);
    } else {
      var rest := b[..|b| - 1];
      assert (a + b)[..|a + b| - 1] == a + rest && (a + b)[|a + b| - 1] == b[|b| - 1];
      SumOfConcatenation(a, rest);
      AddIsAssociative(Sum(a), Sum(rest), b[|b| - 1]);
    }
  }

  lemma SumAppend(usages: seq<BudgetUsage>, x: BudgetUsage)
    ensures Sum(usages + [x]) == Add(Sum(usages), x)
  {
  }

  lemma AddSwap(a: BudgetUsage, x: BudgetUsage, b: BudgetUsage)
    ensures Add(Add(a, x), b) == Add(Add(a, b), x)
    ensures Sub(Add(Add(a, x), b), x) == Some(Add(a, b))
  {
  }

  /** Taking one charge out of a list takes exactly that charge out of its total. */
  lemma SumWithout(usages: seq<BudgetUsage>, i: nat)
    requires i < |usages|
    ensures Sub(Sum(usages), usages[i]) == Some(Sum(usages[..i] + usages[i + 1..]))
  {
    hide Add, Sub, Sum;
    var a, x, b := usages[..i], usages[i], usages[i + 1..];
    assert usages == a + [x] + b;
    SumOfConcatenation(a + [x], b);
    SumOfConcatenation(a, b);
    SumAppend(a, x);
    AddSwap(Sum(a), x, Sum(b));
  }
}
