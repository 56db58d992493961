/** The state-machine check of workflow definitions (`contracts/models.py`): a worklist computes
    the states reachable from the initial one. */
module Workflow {
  import opened Wrappers

  datatype Transition = Transition(source: string, target: string, step: string)

  datatype Definition = Definition(initial: string, states: seq<string>, transitions: seq<Transition>, steps: seq<string>)

  datatype Problem = NoStates | InitialNotDeclared | StateNotDeclared | StepNotAvailable | StateNotReachable

  // ----- What a sound definition is -----

  predicate Edge(transitions: seq<Transition>, a: string, b: string) {
    exists i :: 0 <= i < |transitions| && transitions[i].source == a && transitions[i].target == b
  }

  predicate IsPath(transitions: seq<Transition>, path: seq<string>) {
    path != [] && forall i :: 0 < i < |path| ==> Edge(transitions, path[i - 1], path[i])
  }

  ghost predicate Reaches(transitions: seq<Transition>, a: string, b: string) {
    exists path :: IsPath(transitions, path) && path[0] == a && path[|path| - 1] == b
  }

  predicate EndpointsDeclared(d: Definition, t: Transition) {
    t.source in d.states && t.target in d.states
  }

  predicate TransitionSound(d: Definition, t: Transition) {
    EndpointsDeclared(d, t) && t.step in d.steps
  }

  ghost predicate Sound(d: Definition) {
    && d.states != []
    && d.initial in d.states
    && (forall t :: t in d.transitions ==> TransitionSound(d, t))
    && (forall s :: s in d.states ==> Reaches(d.transitions, d.initial, s))
  }

  /** A refusal names what is wrong, and nothing checked before it is. */
  ghost predicate Explains(d: Definition, problem: Problem) {
    match problem
    case NoStates => d.states == []
    case InitialNotDeclared => d.states != [] && d.initial !in d.states
    case StateNotDeclared =>
      d.initial in d.states &&
      exists i :: 0 <= i < |d.transitions| && !EndpointsDeclared(d, d.transitions[i]) &&
        forall k :: 0 <= k < i ==> TransitionSound(d, d.transitions[k])
    case StepNotAvailable =>
      d.initial in d.states &&
      exists i :: 0 <= i < |d.transitions| && EndpointsDeclared(d, d.transitions[i]) && d.transitions[i].step !in d.steps &&
        forall k :: 0 <= k < i ==> TransitionSound(d, d.transitions[k])
    case StateNotReachable =>
      && d.initial in d.states
      && (forall t :: t in d.transitions ==> TransitionSound(d, t))
      && exists s :: s in d.states && !Reaches(d.transitions, d.initial, s)
  }

  // ----- Paths -----

  lemma PathExtends(transitions: seq<Transition>, a: string, b: string, c: string)
    requires Reaches(transitions, a, b) && Edge(transitions, b, c)
    ensures Reaches(transitions, a, c)
  {
    var path :| IsPath(transitions, path) && path[0] == a && path[|path| - 1] == b;
    assert IsPath(transitions, path + [c]);
    assert (path + [c])[|path|] == c;
  }

  ghost predicate ClosedUnder(transitions: seq<Transition>, region: set<string>) {
    forall a, b :: a in region && Edge(transitions, a, b) ==> b in region
  }

  /** No path leaves a closed region. */
  lemma {:induction false} PathStaysInside(transitions: seq<Transition>, region: set<string>, path: seq<string>)
    requires ClosedUnder(transitions, region) && IsPath(transitions, path) && path[0] in region
    ensures path[|path| - 1] in region
    decreases |path|
  {
    if |path| > 1 {
      var shorter := path[..|path| - 1];
      assert IsPath(transitions, shorter);
      PathStaysInside(transitions, region, shorter);
      assert Edge(transitions, path[|path| - 2], path[|path| - 1]);
    }
  }

  lemma NothingOutsideIsReached(transitions: seq<Transition>, region: set<string>, a: string)
    requires ClosedUnder(transitions, region) && a in region
    ensures forall b :: Reaches(transitions, a, b) ==> b in region
  {
    forall b | Reaches(transitions, a, b)
      ensures b in region
    {
      var path :| IsPath(transitions, path) && path[0] == a && path[|path| - 1] == b;
      PathStaysInside(transitions, region, path);
    }
  }

  // ----- The worklist -----

  /** The loop over the worklist: it ends, and what it has collected is exactly the closure of
      the initial state. */
  method ReachableStates(d: Definition) returns (reachable: set<string>)
    requires d.initial in d.states
    requires forall t :: t in d.transitions ==> EndpointsDeclared(d, t)
    ensures forall s :: s in reachable <==> Reaches(d.transitions, d.initial, s)
  {
    ghost var declared := set s | s in d.states;
    reachable := {d.initial};
    var pending := [d.initial];
    assert IsPath(d.transitions, [d.initial]);
    while pending != []
      invariant d.initial in reachable && reachable <= declared
      invariant forall s :: s in pending ==> s in reachable
      invariant forall s :: s in reachable ==> Reaches(d.transitions, d.initial, s)
      invariant forall a, b :: a in reachable && a !in pending && Edge(d.transitions, a, b) ==> b in reachable
      decreases declared - reachable, |pending|
    {
      var current := pending[|pending| - 1];
      pending := pending[..|pending| - 1];
      ghost var before, popped := reachable, pending;
      for i := 0 to |d.transitions|
        invariant d.initial in reachable && reachable <= declared && current in reachable
        invariant forall s :: s in pending ==> s in reachable
        invariant forall s :: s in reachable ==> Reaches(d.transitions, d.initial, s)
        invariant forall a, b :: a in reachable && a !in pending && a != current && Edge(d.transitions, a, b) ==> b in reachable
        invariant before <= reachable && (before == reachable ==> pending == popped)
        invariant forall k :: 0 <= k < i && d.transitions[k].source == current ==> d.transitions[k].target in reachable
      {
        var t := d.transitions[i];
        if t.source == current && t.target !in reachable {
          assert EndpointsDeclared(d, t);
          PathExtends(d.transitions, d.initial, current, t.target);
          reachable := reachable + {t.target};
          pending := pending + [t.target];
        }
      }
    }
    NothingOutsideIsReached(d.transitions, reachable, d.initial);
  }

  /** `validate_state_machine`. */
  method ValidateStateMachine(d: Definition) returns (verdict: Result<(), Problem>)
    ensures verdict.Ok? <==> Sound(d)
    ensures verdict.Err? ==> Explains(d, verdict.error)
  {
    if d.states == [] {
      return Err(NoStates);
    }
    if d.initial !in d.states {
      return Err(InitialNotDeclared);
    }
    for i := 0 to |d.transitions|
      invariant forall k :: 0 <= k < i ==> TransitionSound(d, d.transitions[k])
    {
      var t := d.transitions[i];
      assert t in d.transitions;
      if t.source !in d.states || t.target !in d.states {
        return Err(StateNotDeclared);
      }
      if t.step !in d.steps {
        return Err(StepNotAvailable);
      }
    }
    var reachable := ReachableStates(d);
    var unreachable := (set s | s in d.states) - reachable;
    if unreachable != {} {
      var s :| s in unreachable;
      return Err(StateNotReachable);
    }
    assert forall s :: s in d.states ==> s in reachable || s in unreachable;
    return Ok(());
  }
}
