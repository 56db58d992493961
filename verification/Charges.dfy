/** Merging the keyword form of a charge into one usage (`BudgetLedger._merge_usage`). */
module Charges {
  import opened Wrappers
  import opened Usage

  /** A keyword value: a Python integer, or any other number. */
  datatype Quantity = Count(n: int) | Number(x: real)

  datatype MergeError = UnknownDimension | NotAnInteger | Negative

  /** The keyword names: the seven dimensions, three aliases, and anything else. */
  datatype Keyword =
    | ModelCalls | ToolCalls | TotalTokens | ArtifactBytes | DurationSeconds | Cost | ReplanningAttempts
    | Tokens | ArtifactSize | Replanning
    | Other(name: string)

  function Canonical(key: Keyword): Keyword {
    match key
    case Tokens => TotalTokens
    case ArtifactSize => ArtifactBytes
    case Replanning => ReplanningAttempts
    case _ => key
  }

  function AsReal(q: Quantity): real {
    match q
    case Count(n) => n as real
    case Number(x) => x
  }

  /** Why one keyword is refused, or `None` when it is accepted. */
  function Refused(key: Keyword, q: Quantity): Option<MergeError> {
    if key.Other? then Some(UnknownDimension)
    else if !key.DurationSeconds? && !key.Cost? && q.Number? then Some(NotAnInteger)
    else if AsReal(q) < 0.0 then Some(Negative)
    else None
  }

  /** The usage one accepted keyword stands for: one dimension, a duration rounded once. */
  function Increment(key: Keyword, q: Quantity): BudgetUsage
    requires Refused(key, q).None?
  {
    RoundIsMonotone(0.0, AsReal(q) * 1000000.0);
    match Canonical(key)
    case DurationSeconds => ZERO.(durationMicros := Microseconds(AsReal(q)))
    case Cost => ZERO.(cost := AsReal(q))
    case ModelCalls => ZERO.(modelCalls := q.n)
    case ToolCalls => ZERO.(toolCalls := q.n)
    case TotalTokens => ZERO.(totalTokens := q.n)
    case ArtifactBytes => ZERO.(artifactBytes := q.n)
    case ReplanningAttempts => ZERO.(replanningAttempts := q.n)
  }

  /** What a keyword must be: known, and a nonnegative number, whole unless it is a duration or a
      cost. */
  predicate Chargeable(key: Keyword, q: Quantity) {
    && !key.Other?
    && (q.Count? ==> q.n >= 0)
    && (q.Number? ==> q.x >= 0.0 && (key.DurationSeconds? || key.Cost?))
  }

  /** Why a keyword is not chargeable; the first of these that holds is reported. */
  predicate Unchargeable(key: Keyword, q: Quantity, error: MergeError) {
    match error
    case UnknownDimension => key.Other?
    case NotAnInteger => !key.Other? && q.Number? && key !in {DurationSeconds, Cost}
    case Negative => if q.Count? then !key.Other? && q.n < 0 else key in {DurationSeconds, Cost} && q.x < 0.0
  }

  lemma RefusalIsExact(key: Keyword, q: Quantity)
    ensures Refused(key, q).None? <==> Chargeable(key, q)
    ensures forall error :: Refused(key, q) == Some(error) <==> Unchargeable(key, q, error)
  {
  }

  predicate Accepted(keywords: seq<(Keyword, Quantity)>) {
    forall i :: 0 <= i < |keywords| ==> Refused(keywords[i].0, keywords[i].1).None?
  }

  function Increments(keywords: seq<(Keyword, Quantity)>): (r: seq<BudgetUsage>)
    requires Accepted(keywords)
    ensures |r| == |keywords|
  {
    seq(|keywords|, i requires 0 <= i < |keywords| => Increment(keywords[i].0, keywords[i].1))
  }

  /** Adds one accepted keyword to the running values. The duration is carried in seconds and
      rounded twice on the way, which amounts to adding the once-rounded keyword. */
  method AddKeyword(values: BudgetUsage, seconds: real, ghost soFar: BudgetUsage, key: Keyword, q: Quantity)
    returns (values': BudgetUsage, seconds': real)
    requires Refused(key, q).None?
    requires values.(durationMicros := soFar.durationMicros) == soFar && seconds == Seconds(soFar.durationMicros)
    ensures var merged := Add(soFar, Increment(key, q));
            values'.(durationMicros := merged.durationMicros) == merged && seconds' == Seconds(merged.durationMicros)
  {
    values', seconds' := values, seconds;
    StoredDurations(soFar.durationMicros, Increment(key, q).durationMicros);
    match Canonical(key)
    case DurationSeconds =>
      WholeMicrosecondsSurvive(Microseconds(AsReal(q)));
      seconds' := GridDuration(seconds + GridDuration(AsReal(q)));
    case Cost =>
      values' := values.(cost := values.cost + AsReal(q));
    case ModelCalls =>
      values' := values.(modelCalls := values.modelCalls + q.n);
    case ToolCalls =>
      values' := values.(toolCalls := values.toolCalls + q.n);
    case TotalTokens =>
      values' := values.(totalTokens := values.totalTokens + q.n);
    case ArtifactBytes =>
      values' := values.(artifactBytes := values.artifactBytes + q.n);
    case ReplanningAttempts =>
      values' := values.(replanningAttempts := values.replanningAttempts + q.n);
  }

  function Merged(start: BudgetUsage, keywords: seq<(Keyword, Quantity)>): BudgetUsage
    requires Accepted(keywords)
  {
    if keywords == [] then start
    else
      var last := keywords[|keywords| - 1];
      Add(Merged(start, keywords[..|keywords| - 1]), Increment(last.0, last.1))
  }

  lemma {:induction false} MergedIsSum(start: BudgetUsage, keywords: seq<(Keyword, Quantity)>)
    requires Accepted(keywords)
    ensures Merged(start, keywords) == Add(start, Sum(Increments(keywords)))
  {
    if keywords == [] {
      AddIsCommutative(start, ZERO);
    } else {
      var n := |keywords| - 1;
      var increment := Increment(keywords[n].0, keywords[n].1);
      MergedIsSum(start, keywords[..n]);
      SumOfNextIncrement(keywords, n);
      assert keywords[..n + 1] == keywords;
      AddIsAssociative(start, Sum(Increments(keywords[..n])), increment);
    }
  }

  // ----- Each dimension by itself -----

  /** The total of the whole numbers given under either of two keywords. */
  function CountOf(keywords: seq<(Keyword, Quantity)>, name: Keyword, alias: Keyword): int {
    if keywords == [] then 0
    else
      var (key, q) := keywords[|keywords| - 1];
      CountOf(keywords[..|keywords| - 1], name, alias) + (if (key == name || key == alias) && q.Count? then q.n else 0)
  }

  function NumberOf(q: Quantity): real {
    if q.Count? then q.n as real else q.x
  }

  function CostOf(keywords: seq<(Keyword, Quantity)>): real {
    if keywords == [] then 0.0
    else
      var (key, q) := keywords[|keywords| - 1];
      CostOf(keywords[..|keywords| - 1]) + (if key == Cost then NumberOf(q) else 0.0)
  }

  /** The total of the durations, each rounded to whole microseconds. */
  function MicrosOf(keywords: seq<(Keyword, Quantity)>): int {
    if keywords == [] then 0
    else
      var (key, q) := keywords[|keywords| - 1];
      MicrosOf(keywords[..|keywords| - 1]) + (if key == DurationSeconds then RoundHalfEven(NumberOf(q) * 1000000.0) else 0)
  }

  /** Every counter is the base's and what was given under its own keyword or its alias. */
  predicate MergedByDimension(start: BudgetUsage, keywords: seq<(Keyword, Quantity)>, r: BudgetUsage) {
    && r.modelCalls == start.modelCalls + CountOf(keywords, ModelCalls, ModelCalls)
    && r.toolCalls == start.toolCalls + CountOf(keywords, ToolCalls, ToolCalls)
    && r.totalTokens == start.totalTokens + CountOf(keywords, TotalTokens, Tokens)
    && r.artifactBytes == start.artifactBytes + CountOf(keywords, ArtifactBytes, ArtifactSize)
    && r.replanningAttempts == start.replanningAttempts + CountOf(keywords, ReplanningAttempts, Replanning)
    && r.durationMicros == start.durationMicros + MicrosOf(keywords)
    && r.cost == start.cost + CostOf(keywords)
  }

  /** One keyword raises one counter, the one of its name. */
  lemma OneKeywordOneCounter(u: BudgetUsage, key: Keyword, q: Quantity)
    requires Refused(key, q).None?
    ensures var r, n := Add(u, Increment(key, q)), if q.Count? then q.n else 0;
            && r.modelCalls == u.modelCalls + (if key == ModelCalls then n else 0)
            && r.toolCalls == u.toolCalls + (if key == ToolCalls then n else 0)
            && r.totalTokens == u.totalTokens + (if key == TotalTokens || key == Tokens then n else 0)
            && r.artifactBytes == u.artifactBytes + (if key == ArtifactBytes || key == ArtifactSize then n else 0)
            && r.replanningAttempts == u.replanningAttempts + (if key == ReplanningAttempts || key == Replanning then n else 0)
            && r.durationMicros == u.durationMicros + (if key == DurationSeconds then RoundHalfEven(NumberOf(q) * 1000000.0) else 0)
            && r.cost == u.cost + (if key == Cost then NumberOf(q) else 0.0)
  {
    hide RoundHalfEven;
  }

  lemma {:induction false} MergedIsByDimension(start: BudgetUsage, keywords: seq<(Keyword, Quantity)>)
    requires Accepted(keywords)
    ensures MergedByDimension(start, keywords, Merged(start, keywords))
  {
    hide RoundHalfEven, Increment, Add, Refused;
    if keywords != [] {
      var earlier, last := keywords[..|keywords| - 1], keywords[|keywords| - 1];
      MergedIsByDimension(start, earlier);
      assert Refused(last.0, last.1).None?;
      OneKeywordOneCounter(Merged(start, earlier), last.0, last.1);
    }
  }

  /** The merge adds to each dimension of the base what was given under its own names, a duration
      rounded once, in whatever order they come; the first keyword that is not chargeable decides
      the error. */
  method MergeUsage(base: Option<BudgetUsage>, keywords: seq<(Keyword, Quantity)>) returns (r: Result<BudgetUsage, MergeError>)
    ensures r.Ok? <==> forall i :: 0 <= i < |keywords| ==> Chargeable(keywords[i].0, keywords[i].1)
    ensures r.Ok? ==> MergedByDimension(if base.Some? then base.value else ZERO, keywords, r.value)
    ensures r.Ok? ==> Accepted(keywords) && r.value == Add(if base.Some? then base.value else ZERO, Sum(Increments(keywords)))
    ensures r.Err? ==>
              exists i :: 0 <= i < |keywords| && Unchargeable(keywords[i].0, keywords[i].1, r.error)
                          && forall k :: 0 <= k < i ==> Chargeable(keywords[k].0, keywords[k].1)
  {
    var start := if base.Some? then base.value else ZERO;
    var values := start;
    var seconds := Seconds(start.durationMicros);
    ghost var merged := start;
    forall i | 0 <= i < |keywords|
      ensures Refused(keywords[i].0, keywords[i].1).None? <==> Chargeable(keywords[i].0, keywords[i].1)
    {
      RefusalIsExact(keywords[i].0, keywords[i].1);
    }
    for i := 0 to |keywords|
      invariant Accepted(keywords[..i])
      invariant merged == Merged(start, keywords[..i])
      invariant values.(durationMicros := merged.durationMicros) == merged && seconds == Seconds(merged.durationMicros)
    {
      var key, q := keywords[i].0, keywords[i].1;
      var refused := Refused(key, q);
      if refused.Some? {
        RefusalIsExact(key, q);
        assert !Chargeable(keywords[i].0, keywords[i].1);
        assert forall k :: 0 <= k < i ==> keywords[..i][k] == keywords[k];
        return Err(refused.value);
      }
      assert keywords[..i + 1][..i] == keywords[..i];
      values, seconds := AddKeyword(values, seconds, merged, key, q);
      merged := Add(merged, Increment(key, q));
    }
    assert keywords[..|keywords|] == keywords;
    MergedIsSum(start, keywords);
    MergedIsByDimension(start, keywords);
    WholeMicrosecondsSurvive(merged.durationMicros);
    return Ok(values.(durationMicros := Microseconds(seconds)));
  }

  lemma SumOfNextIncrement(keywords: seq<(Keyword, Quantity)>, i: nat)
    requires i < |keywords| && Accepted(keywords[..i]) && Refused(keywords[i].0, keywords[i].1).None?
    ensures Accepted(keywords[..i + 1])
    ensures Sum(Increments(keywords[..i + 1])) == Add(Sum(Increments(keywords[..i])), Increment(keywords[i].0, keywords[i].1))
  {
    assert keywords[..i + 1] == keywords[..i] + [keywords[i]];
    var all := Increments(keywords[..i + 1]);
    assert all[..|all| - 1] == Increments(keywords[..i]);
  }
}
