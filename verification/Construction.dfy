/** The checks on construction scripts (`contracts/construction.py`): the order of the
    operations that build a component, the order of an analysis, and the names an assembly uses. */
module Construction {
  import opened Wrappers

  // ----- Component scripts -----

  predicate IsSolidOp(op: string) {
    op == "extrude" || op == "revolve"
  }

  /** Operations that use up the sketch before them. */
  predicate Consumes(op: string) {
    op == "pocket" || IsSolidOp(op)
  }

  predicate IsComponentOp(op: string) {
    op == "sketch" || op == "helix" || Consumes(op)
  }

  /** The sketch that is open when step `i` is reached. */
  predicate AfterSketch(ops: seq<string>, i: nat) {
    0 < i <= |ops| && ops[i - 1] == "sketch"
  }

  /** The first `n` operations by themselves: the first two draw and raise a solid, sketches and
      consuming operations come in adjacent pairs, and nothing else is used but helices. The last
      sketch may still be open. */
  predicate GoodSoFar(ops: seq<string>, n: nat)
    requires n <= |ops|
  {
    && (0 < n ==> ops[0] == "sketch")
    && (1 < n ==> IsSolidOp(ops[1]))
    && forall i :: 0 <= i < n ==> IsComponentOp(ops[i]) && (AfterSketch(ops, i) <==> Consumes(ops[i]))
  }

  /** What a component script must be. */
  predicate BuildsComponent(ops: seq<string>) {
    |ops| >= 2 && GoodSoFar(ops, |ops|) && !AfterSketch(ops, |ops|)
  }

  datatype Fault =
    | SketchNotConsumed | HelixBeforeSolid | HelixOverSketch | PocketBeforeSolid | PocketWithoutSketch
    | SolidWithoutSketch | UnknownOperation | NoSolid | SketchLeftOver

  /** The fault is the one at the first operation that no good script could have there. */
  predicate Explains(ops: seq<string>, fault: Fault) {
    match fault
    case NoSolid => |ops| < 2 && GoodSoFar(ops, |ops|)
    case SketchLeftOver => |ops| >= 2 && GoodSoFar(ops, |ops|) && AfterSketch(ops, |ops|)
    case _ => exists i :: 0 <= i < |ops| && GoodSoFar(ops, i) && FaultyAt(ops, i, fault)
  }

  predicate FaultyAt(ops: seq<string>, i: nat, fault: Fault)
    requires i < |ops|
  {
    match fault
    case SketchNotConsumed => ops[i] == "sketch" && AfterSketch(ops, i)
    case HelixBeforeSolid => ops[i] == "helix" && i < 2
    case HelixOverSketch => ops[i] == "helix" && i >= 2 && AfterSketch(ops, i)
    case PocketBeforeSolid => ops[i] == "pocket" && i < 2
    case PocketWithoutSketch => ops[i] == "pocket" && i >= 2 && !AfterSketch(ops, i)
    case SolidWithoutSketch => IsSolidOp(ops[i]) && !AfterSketch(ops, i)
    case UnknownOperation => !IsComponentOp(ops[i])
    case _ => false
  }

  /** `check_sequence`, with its two flags. */
  method CheckSequence(ops: seq<string>) returns (verdict: Result<(), Fault>)
    ensures verdict.Ok? <==> BuildsComponent(ops)
    ensures verdict.Err? ==> Explains(ops, verdict.error)
  {
    var pending, solid := false, false;
    for i := 0 to |ops|
      invariant GoodSoFar(ops, i)
      invariant pending == AfterSketch(ops, i) && solid == (i >= 2)
    {
      var op := ops[i];
      if op == "sketch" {
        if pending {
          assert FaultyAt(ops, i, SketchNotConsumed);
          return Err(SketchNotConsumed);
        }
        pending := true;
      } else if op == "helix" {
        if !solid {
          assert FaultyAt(ops, i, HelixBeforeSolid);
          return Err(HelixBeforeSolid);
        }
        if pending {
          assert FaultyAt(ops, i, HelixOverSketch);
          return Err(HelixOverSketch);
        }
      } else if op == "pocket" {
        if !solid {
          assert FaultyAt(ops, i, PocketBeforeSolid);
          return Err(PocketBeforeSolid);
        }
        if !pending {
          assert FaultyAt(ops, i, PocketWithoutSketch);
          return Err(PocketWithoutSketch);
        }
        pending := false;
      } else if op == "extrude" || op == "revolve" {
        if !pending {
          assert FaultyAt(ops, i, SolidWithoutSketch);
          return Err(SolidWithoutSketch);
        }
        pending, solid := false, true;
      } else {
        assert FaultyAt(ops, i, UnknownOperation);
        return Err(UnknownOperation);
      }
    }
    if !solid {
      return Err(NoSolid);
    }
    if pending {
      return Err(SketchLeftOver);
    }
    return Ok(());
  }

  // ----- The language of component scripts -----

  /** Any number of helices and of sketches consumed at once. */
  predicate Additions(ops: seq<string>) {
    ops == [] ||
    (ops[0] == "helix" && Additions(ops[1..])) ||
    (|ops| >= 2 && ops[0] == "sketch" && Consumes(ops[1]) && Additions(ops[2..]))
  }

  /** A sketch, a solid operation, then additions. */
  predicate Grammar(ops: seq<string>) {
    |ops| >= 2 && ops[0] == "sketch" && IsSolidOp(ops[1]) && Additions(ops[2..])
  }

  /** From step `k` on, with no sketch open: pairs and helices only. */
  predicate PairedFrom(ops: seq<string>, k: nat) {
    && (forall i :: k <= i < |ops| ==> IsComponentOp(ops[i]) && (i > k && AfterSketch(ops, i) <==> Consumes(ops[i])))
    && (k < |ops| ==> !AfterSketch(ops, |ops|))
  }

  lemma {:induction false} PairedIsAdditions(ops: seq<string>, k: nat)
    requires k <= |ops|
    ensures PairedFrom(ops, k) <==> Additions(ops[k..])
    decreases |ops| - k
  {
    if k < |ops| {
      assert ops[k..][0] == ops[k];
      if ops[k] == "helix" {
        assert ops[k..][1..] == ops[k + 1..];
        PairedIsAdditions(ops, k + 1);
        assert forall i :: k + 1 <= i < |ops| ==> (i > k && AfterSketch(ops, i) <==> i > k + 1 && AfterSketch(ops, i));
      } else if ops[k] == "sketch" && k + 1 < |ops| && Consumes(ops[k + 1]) {
        assert ops[k..][1] == ops[k + 1] && ops[k..][2..] == ops[k + 2..];
        PairedIsAdditions(ops, k + 2);
        assert forall i :: k + 2 <= i < |ops| ==> (i > k && AfterSketch(ops, i) <==> i > k + 2 && AfterSketch(ops, i));
      } else if ops[k] == "sketch" && k + 1 < |ops| {
        assert AfterSketch(ops, k + 1) && !PairedFrom(ops, k);
      }
    }
  }

  /** The check accepts exactly the scripts of the grammar. */
  lemma AcceptedScriptsAreTheGrammar(ops: seq<string>)
    ensures BuildsComponent(ops) <==> Grammar(ops)
  {
    if |ops| >= 2 {
      PairedIsAdditions(ops, 2);
      if ops[0] == "sketch" && IsSolidOp(ops[1]) {
        assert AfterSketch(ops, 1) && !AfterSketch(ops, 0) && !AfterSketch(ops, 2);
        assert GoodSoFar(ops, |ops|) && !AfterSketch(ops, |ops|) <==> PairedFrom(ops, 2);
      }
    }
  }

  lemma PrefixOfGood(ops: seq<string>, more: seq<string>)
    ensures GoodSoFar(ops + more, |ops|) <==> GoodSoFar(ops, |ops|)
  {
    var all := ops + more;
    assert forall i :: 0 <= i < |ops| ==> all[i] == ops[i];
    assert forall i :: 0 <= i <= |ops| ==> (AfterSketch(all, i) <==> AfterSketch(ops, i));
  }

  lemma GoodPrefixCompletes(ops: seq<string>) returns (more: seq<string>)
    requires GoodSoFar(ops, |ops|)
    ensures BuildsComponent(ops + more)
  {
    more := if AfterSketch(ops, |ops|) then ["extrude"] else if ops == [] then ["sketch", "extrude"] else [];
    PrefixOfGood(ops, more);
    if AfterSketch(ops, |ops|) {
      assert AfterSketch(ops + more, |ops|) && !AfterSketch(ops + more, |ops| + 1);
    } else if ops == [] {
      assert ops + more == ["sketch", "extrude"];
      assert AfterSketch(more, 1) && !AfterSketch(more, 2);
    } else {
      assert ops + more == ops;
      assert AfterSketch(ops, 1);
    }
  }

  /** A refusal comes as early as possible: operations pass the loop exactly when some
      continuation of them is accepted. */
  lemma GoodPrefixesCanBeCompleted(ops: seq<string>)
    ensures GoodSoFar(ops, |ops|) <==> exists more :: BuildsComponent(ops + more)
  {
    hide BuildsComponent;
    if GoodSoFar(ops, |ops|) {
      var more := GoodPrefixCompletes(ops);
    }
    if more :| BuildsComponent(ops + more) {
      CompletedPrefixIsGood(ops, more);
    }
  }

  lemma CompletedPrefixIsGood(ops: seq<string>, more: seq<string>)
    requires BuildsComponent(ops + more)
    ensures GoodSoFar(ops, |ops|)
  {
    PrefixOfGood(ops, more);
  }

  // ----- Building -----

  /** A builder's bench: sketches drawn and not used up, and features of the solid. */
  datatype Bench = Bench(sketches: nat, features: nat)

  /** One operation; `None` when the builder is stuck. */
  function Perform(bench: Bench, op: string): Option<Bench> {
    if op == "sketch" then Some(bench.(sketches := bench.sketches + 1))
    else if IsSolidOp(op) && bench.sketches > 0 then Some(Bench(bench.sketches - 1, bench.features + 1))
    else if op == "pocket" && bench.sketches > 0 && bench.features > 0 then Some(Bench(bench.sketches - 1, bench.features + 1))
    else if op == "helix" && bench.features > 0 then Some(bench)
    else None
  }

  function Build(ops: seq<string>): Option<Bench> {
    if ops == [] then Some(Bench(0, 0))
    else
      var before := Build(ops[..|ops| - 1]);
      if before.None? then None else Perform(before.value, ops[|ops| - 1])
  }

  function Count(ops: seq<string>, op: string): nat {
    if ops == [] then 0 else Count(ops[..|ops| - 1], op) + (if ops[|ops| - 1] == op then 1 else 0)
  }

  function Consumers(ops: seq<string>): nat {
    Count(ops, "extrude") + Count(ops, "revolve") + Count(ops, "pocket")
  }

  lemma {:induction false} GoodPrefixesBuild(ops: seq<string>, n: nat)
    requires n <= |ops| && GoodSoFar(ops, n)
    ensures var drawn, open := Count(ops[..n], "sketch"), if AfterSketch(ops, n) then 1 else 0;
            && drawn >= open && Build(ops[..n]) == Some(Bench(open, drawn - open))
            && (n >= 2 ==> drawn > open)
            && drawn - open == Consumers(ops[..n])
    decreases n
  {
    if n == 0 {
      assert ops[..0] == [];
    } else {
      GoodPrefixesBuild(ops, n - 1);
      BuildOneMore(ops, n - 1);
      assert AfterSketch(ops, n - 1) <==> Consumes(ops[n - 1]);
      assert AfterSketch(ops, n) <==> ops[n - 1] == "sketch";
      hide Build, Count, Consumers, GoodSoFar;
      var open := if AfterSketch(ops, n - 1) then 1 else 0;
      GoodOperation(Bench(open, Count(ops[..n - 1], "sketch") - open), ops[n - 1]);
    }
  }

  /** A known operation on a bench with a sketch open exactly when it consumes one. */
  lemma GoodOperation(bench: Bench, op: string)
    requires IsComponentOp(op) && bench.sketches == (if Consumes(op) then 1 else 0)
    ensures bench.features > 0 || op == "sketch" || IsSolidOp(op) ==>
              Perform(bench, op) == Some(Bench(if op == "sketch" then 1 else 0, bench.features + if Consumes(op) then 1 else 0))
    ensures !(op == "sketch" && Consumes(op))
  {
  }

  lemma BuildOneMore(ops: seq<string>, n: nat)
    requires n < |ops|
    ensures Build(ops[..n + 1]) == (var before := Build(ops[..n]); if before.None? then None else Perform(before.value, ops[n]))
    ensures Count(ops[..n + 1], "sketch") == Count(ops[..n], "sketch") + (if ops[n] == "sketch" then 1 else 0)
    ensures Consumers(ops[..n + 1]) == Consumers(ops[..n]) + (if Consumes(ops[n]) then 1 else 0)
  {
    hide Perform;
    assert ops[..n + 1][..n] == ops[..n] && ops[..n + 1][n] == ops[n];
  }

  /** An accepted script builds: it is never stuck, it leaves a solid and no open sketch, and
      every sketch was used up by exactly one operation. */
  lemma AcceptedScriptsBuild(ops: seq<string>)
    requires BuildsComponent(ops)
    ensures Build(ops) == Some(Bench(0, Count(ops, "sketch"))) && Count(ops, "sketch") > 0
    ensures Count(ops, "sketch") == Consumers(ops)
  {
    GoodPrefixesBuild(ops, |ops|);
    assert ops[..|ops|] == ops;
  }

  // ----- Analysis scripts -----

  function Rank(op: string): Option<nat> {
    if op == "material" then Some(1)
    else if op == "fix" then Some(2)
    else if op == "force" || op == "pressure" then Some(3)
    else if op == "mesh" then Some(4)
    else if op == "solve" then Some(5)
    else None
  }

  datatype OrderFault = UnknownStep | OutOfOrder | NoSolve

  /** The first `n` steps are known and in the solver's order. */
  predicate InOrder(ops: seq<string>, n: nat)
    requires n <= |ops|
  {
    && (forall i :: 0 <= i < n ==> Rank(ops[i]).Some?)
    && (forall i, j :: 0 <= i < j < n ==> Rank(ops[i]).value <= Rank(ops[j]).value)
  }

  predicate ExplainsOrder(ops: seq<string>, fault: OrderFault) {
    match fault
    case UnknownStep => exists i :: 0 <= i < |ops| && InOrder(ops, i) && Rank(ops[i]).None?
    case OutOfOrder => exists i :: 0 <= i < |ops| && InOrder(ops, i) && Rank(ops[i]).Some? && !InOrder(ops, i + 1)
    case NoSolve => InOrder(ops, |ops|) && "solve" !in ops
  }

  /** `check_order`: it compares neighbours only, and that orders the whole script. */
  method CheckOrder(ops: seq<string>) returns (verdict: Result<(), OrderFault>)
    ensures verdict.Ok? <==> InOrder(ops, |ops|) && "solve" in ops
    ensures verdict.Err? ==> ExplainsOrder(ops, verdict.error)
  {
    hide Rank;
    var rank, solved := 0, false;
    for i := 0 to |ops|
      invariant InOrder(ops, i)
      invariant solved <==> exists k :: 0 <= k < i && ops[k] == "solve"
      invariant forall k :: 0 <= k < i ==> Rank(ops[k]).value <= rank
      invariant if i == 0 then rank == 0 else Rank(ops[i - 1]) == Some(rank)
    {
      var r := Rank(ops[i]);
      if r.None? {
        assert !InOrder(ops, |ops|);
        return Err(UnknownStep);
      }
      if r.value < rank {
        assert i > 0 && !InOrder(ops, i + 1) && !InOrder(ops, |ops|);
        return Err(OutOfOrder);
      }
      rank := r.value;
      solved := solved || ops[i] == "solve";
    }
    if !solved {
      return Err(NoSolve);
    }
    return Ok(());
  }

  /** The five stages of an analysis: materials, fixtures, loads, meshes, solves. */
  function Stage(k: nat): set<string>
    requires k < 5
  {
    [{"material"}, {"fix"}, {"force", "pressure"}, {"mesh"}, {"solve"}][k]
  }

  predicate InStage(ops: seq<string>, k: nat)
    requires k < 5
  {
    forall i :: 0 <= i < |ops| ==> ops[i] in Stage(k)
  }

  /** The script is its stages one after another, any of them possibly empty. */
  predicate Staged(ops: seq<string>, a: nat, b: nat, c: nat, d: nat) {
    && a <= b <= c <= d <= |ops|
    && InStage(ops[..a], 0) && InStage(ops[a..b], 1) && InStage(ops[b..c], 2) && InStage(ops[c..d], 3) && InStage(ops[d..], 4)
  }

  lemma RankIsStage(op: string)
    ensures Rank(op).Some? ==> 1 <= Rank(op).value <= 5 && op in Stage(Rank(op).value - 1)
    ensures forall k: nat :: k < 5 && op in Stage(k) ==> Rank(op) == Some(k + 1)
  {
  }

  /** Where the steps of a rank above `k` begin. */
  function Boundary(ops: seq<string>, k: nat): (n: nat)
    requires InOrder(ops, |ops|)
    ensures n <= |ops|
    ensures forall i :: 0 <= i < |ops| ==> (i < n <==> Rank(ops[i]).value <= k)
  {
    if ops == [] then 0
    else
      var earlier, last := ops[..|ops| - 1], ops[|ops| - 1];
      assert Rank(ops[|ops| - 1]).Some? && forall i :: 0 <= i < |ops| - 1 ==> earlier[i] == ops[i];
      var n := Boundary(earlier, k);
      if Rank(last).value <= k then |ops| else n
  }

  /** The solver's order is exactly the order of the stages. */
  lemma OrderIsStages(ops: seq<string>)
    ensures InOrder(ops, |ops|) <==> exists a, b, c, d :: Staged(ops, a, b, c, d)
  {
    hide Rank, Stage;
    forall i | 0 <= i < |ops|
      ensures Rank(ops[i]).Some? ==> 1 <= Rank(ops[i]).value <= 5 && ops[i] in Stage(Rank(ops[i]).value - 1)
      ensures forall k: nat :: k < 5 && ops[i] in Stage(k) ==> Rank(ops[i]) == Some(k + 1)
    {
      RankIsStage(ops[i]);
    }
    if InOrder(ops, |ops|) {
      var a, b, c, d := Boundary(ops, 1), Boundary(ops, 2), Boundary(ops, 3), Boundary(ops, 4);
      BoundariesRise(ops, 1);
      BoundariesRise(ops, 2);
      BoundariesRise(ops, 3);
      RankedSlice(ops, 0, 0, a);
      RankedSlice(ops, 1, a, b);
      RankedSlice(ops, 2, b, c);
      RankedSlice(ops, 3, c, d);
      RankedSlice(ops, 4, d, |ops|);
      assert ops[0..a] == ops[..a] && ops[d..|ops|] == ops[d..];
      assert Staged(ops, a, b, c, d);
    }
    if a, b, c, d :| Staged(ops, a, b, c, d) {
      StagesAreRanked(ops, a, b, c, d);
    }
  }

  lemma BoundariesRise(ops: seq<string>, k: nat)
    requires InOrder(ops, |ops|)
    ensures Boundary(ops, k) <= Boundary(ops, k + 1)
  {
    hide Rank;
    var n := Boundary(ops, k + 1);
    assert n < |ops| ==> Rank(ops[n]).value > k;
  }

  lemma RankedSlice(ops: seq<string>, k: nat, from: nat, to: nat)
    requires k < 5 && from <= to <= |ops| && forall i :: from <= i < to ==> Rank(ops[i]) == Some(k + 1)
    ensures InStage(ops[from..to], k)
  {
    hide Rank, Stage;
    forall i | from <= i < to
      ensures ops[i] in Stage(k)
    {
      RankIsStage(ops[i]);
    }
  }

  lemma StagesAreRanked(ops: seq<string>, a: nat, b: nat, c: nat, d: nat)
    requires Staged(ops, a, b, c, d)
    ensures InOrder(ops, |ops|)
  {
    hide Rank, Stage;
    forall i | 0 <= i < |ops|
      ensures Rank(ops[i]) == Some(if i < a then 1 else if i < b then 2 else if i < c then 3 else if i < d then 4 else 5)
    {
      RankIsStage(ops[i]);
      if i < a {
        assert ops[..a][i] == ops[i];
      } else if i < b {
        assert ops[a..b][i - a] == ops[i];
      } else if i < c {
        assert ops[b..c][i - b] == ops[i];
      } else if i < d {
        assert ops[c..d][i - c] == ops[i];
      } else {
        assert ops[d..][i - d] == ops[i];
      }
    }
  }

  // ----- Names -----

  datatype Component = Component(name: string, ops: seq<string>)

  datatype Joining = Joining(component: Option<string>, components: seq<string>)

  datatype Script = Script(components: seq<Component>, assembly: seq<Joining>)

  datatype ReferenceFault = RepeatedName | MissingComponent(name: string) | TooManySteps(total: nat)

  const MAX_TOTAL_STEPS := 500

  function Names(components: seq<Component>): (r: seq<string>)
    ensures |r| == |components|
  {
    seq(|components|, i requires 0 <= i < |components| => components[i].name)
  }

  function Referenced(step: Joining): seq<string> {
    (if step.component.Some? then [step.component.value] else []) + step.components
  }

  predicate Distinct(names: seq<string>) {
    forall i, j :: 0 <= i < j < |names| ==> names[i] != names[j]
  }

  /** A step names a component of its own, a list of components, or both. */
  predicate StepKnown(step: Joining, names: seq<string>) {
    (step.component.Some? ==> step.component.value in names) && forall name :: name in step.components ==> name in names
  }

  /** The first `n` steps name known components only. */
  predicate KnownUpTo(script: Script, n: nat)
    requires n <= |script.assembly|
  {
    forall k :: 0 <= k < n ==> StepKnown(script.assembly[k], Names(script.components))
  }

  predicate AllKnown(script: Script) {
    KnownUpTo(script, |script.assembly|)
  }

  /** The name is the first unknown one: of the first such step, its own component before its list. */
  predicate FirstUnknown(script: Script, name: string) {
    var names := Names(script.components);
    exists k :: 0 <= k < |script.assembly| && KnownUpTo(script, k) && UnknownIn(script.assembly[k], names, name)
  }

  predicate UnknownIn(step: Joining, names: seq<string>, name: string) {
    name !in names &&
    if step.component.Some? && step.component.value !in names then name == step.component.value
    else exists j :: 0 <= j < |step.components| && step.components[j] == name && forall i :: 0 <= i < j ==> step.components[i] in names
  }

  function TotalSteps(components: seq<Component>): nat {
    if components == [] then 0 else TotalSteps(components[..|components| - 1]) + |components[|components| - 1].ops|
  }

  /** Counting the set of names tells whether one repeats. */
  lemma {:induction false} SetSizeTellsRepeats(names: seq<string>)
    ensures var known := set n | n in names; |known| <= |names| && (|known| == |names| <==> Distinct(names))
  {
    if names != [] {
      var earlier, last := names[..|names| - 1], names[|names| - 1];
      SetSizeTellsRepeats(earlier);
      var before, known := set n | n in earlier, set n | n in names;
      assert known == before + {last};
      if last in before {
        var i :| 0 <= i < |earlier| && earlier[i] == last;
        assert names[i] == names[|names| - 1];
      } else {
        assert Distinct(earlier) ==> Distinct(names);
      }
      assert Distinct(names) ==> Distinct(earlier);
    }
  }

  /** `check_references`. */
  method CheckReferences(script: Script) returns (verdict: Result<(), ReferenceFault>)
    ensures verdict.Ok? <==>
              && Distinct(Names(script.components)) && AllKnown(script)
              && TotalSteps(script.components) + |script.assembly| <= 500
    ensures verdict.Err? ==>
              match verdict.error
              case RepeatedName => !Distinct(Names(script.components))
              case MissingComponent(name) =>
                Distinct(Names(script.components)) && FirstUnknown(script, name)
              case TooManySteps(total) =>
                && Distinct(Names(script.components)) && AllKnown(script)
                && total == TotalSteps(script.components) + |script.assembly| > 500
  {
    var names := Names(script.components);
    var known := set n | n in names;
    SetSizeTellsRepeats(names);
    if |names| != |known| {
      return Err(RepeatedName);
    }
    for k := 0 to |script.assembly|
      invariant KnownUpTo(script, k)
    {
      var step := script.assembly[k];
      var referenced := Referenced(step);
      var own := if step.component.Some? then 1 else 0;
      assert forall i :: own <= i < |referenced| ==> referenced[i] == step.components[i - own];
      for j := 0 to |referenced|
        invariant forall i :: 0 <= i < j ==> referenced[i] in names
      {
        assert own == 1 ==> referenced[0] == step.component.value;
        if referenced[j] !in known {
          if j >= own {
            assert step.components[j - own] == referenced[j];
            assert forall i :: 0 <= i < j - own ==> step.components[i] == referenced[i + own];
          }
          assert own == 1 && j > 0 ==> step.component.value in names;
          assert UnknownIn(step, names, referenced[j]);
          return Err(MissingComponent(referenced[j]));
        }
      }
      assert own == 1 ==> step.component.value == referenced[0];
      forall name | name in step.components
        ensures name in names
      {
        var i :| 0 <= i < |step.components| && step.components[i] == name;
        assert referenced[i + own] == name;
      }
      assert StepKnown(step, names);
    }
    var total := 0;
    for k := 0 to |script.components|
      invariant total == TotalSteps(script.components[..k])
    {
      assert script.components[..k + 1][..k] == script.components[..k];
      total := total + |script.components[k].ops|;
    }
    assert script.components[..|script.components|] == script.components;
    total := total + |script.assembly|;
    if total > MAX_TOTAL_STEPS {
      return Err(TooManySteps(total));
    }
    return Ok(());
  }
}
