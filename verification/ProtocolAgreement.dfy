/** Whether the policy engine of a process agrees with the approval store. Each process has its
    own engine, so a decision made elsewhere can pass it by. */
module ProtocolAgreement {
  import opened Wrappers
  import opened Identifiers
  import opened Ledgers
  import opened Revisions
  import opened Rederivation
  import opened Protocol
  import opened ProtocolInvariant
  import opened ProtocolRuns
  import opened ProtocolTheorems
  import opened ProtocolProgress
  import opened ProtocolRecords
  import LedgerRuns

  /** The policy engine and the approval store agree on every request the engine tracks. */
  predicate Agrees(policy: Policy, approvals: map<RequestId, Approval>) {
    forall r :: r in policy.status ==> r in approvals && approvals[r].status == policy.status[r]
  }

  /** The requests an engine still holds pending although the store holds a decision. */
  function Missed(policy: Policy, approvals: map<RequestId, Approval>): set<RequestId> {
    set r | r in policy.status && policy.status[r] == Pending && r in approvals && approvals[r].status != Pending
  }

  /** The recorded policy agrees with the store. */
  predicate SavedAgrees(store: Store) {
    store.savedPolicy.Some? ==> Agrees(store.savedPolicy.value, store.approvals)
  }

  /** What a process would miss that takes up the recorded policy. */
  function SavedMissed(store: Store): set<RequestId> {
    if store.savedPolicy.None? then {} else Missed(store.savedPolicy.value, store.approvals)
  }

  /** An engine that is never ahead of the store disagrees with it only by missing decisions. */
  lemma AgreesIffNothingMissed(policy: Policy, approvals: map<RequestId, Approval>)
    requires NeverAhead(policy, approvals)
    ensures Agrees(policy, approvals) <==> Missed(policy, approvals) == {}
  {
    if Missed(policy, approvals) == {} {
      forall r | r in policy.status
        ensures r in approvals && approvals[r].status == policy.status[r]
      {
        assert r !in Missed(policy, approvals);
      }
    }
  }

  /** In every reachable state, a live engine agrees with the store exactly when it has missed
      nothing. */
  lemma AgreementIsMissingNothing(c: Config, s: System, pid: nat)
    requires Reachable(c, s) && pid in s.processes
    ensures Agrees(s.processes[pid].policy, s.store.approvals) <==> Missed(s.processes[pid].policy, s.store.approvals) == {}
  {
    ReachableIsInvariant(c, s);
    AgreesIffNothingMissed(s.processes[pid].policy, s.store.approvals);
  }

  // ----- How every step changes what is missed -----

  predicate IsUnit(a: Action) {
    a.FinishPrepare? || a.FinishDecision?
  }

  /** The action is the unit in flight of its kind, and commits. */
  predicate Commits(s: System, a: Action) {
    IsUnit(a) && UnitCommits(s, a.flight, a.evicted) && s.flights[a.flight].Preparing? == a.FinishPrepare?
  }

  /** The unit in flight ends without effect, by a failure or a refusal, and puts back the policy
      that it noted. */
  predicate PutsBack(s: System, a: Action) {
    && (a.FailUnit? || IsUnit(a))
    && a.flight in s.flights && s.flights[a.flight].note.Some? && s.flights[a.flight].pid in s.processes
    && (IsUnit(a) ==> s.flights[a.flight].Preparing? == a.FinishPrepare? && !UnitCommits(s, a.flight, a.evicted))
  }

  /** A starting process misses what the recorded policy missed. A unit of its own drops what it
      evicts, or, if it ends without effect, puts back the policy that it noted. A decision by
      another process adds its request, if the engine tracks it. Nothing else changes what an
      engine has missed. */
  function MissedAfter(s: System, a: Action, pid: nat): set<RequestId> {
    if pid !in s.processes then SavedMissed(s.store)
    else
      var before := Missed(s.processes[pid].policy, s.store.approvals);
      if PutsBack(s, a) && s.flights[a.flight].pid == pid then Missed(s.flights[a.flight].note.value, s.store.approvals)
      else if !Commits(s, a) then before
      else
        var f := s.flights[a.flight];
        if f.pid == pid then before - a.evicted
        else if f.Deciding? && f.derived.requestId in s.processes[pid].policy.status then before + {f.derived.requestId}
        else before
  }

  lemma MissedStep(c: Config, s: System, a: Action, pid: nat)
    requires Reachable(c, s) && pid in Next(c, s, a).processes
    ensures Missed(Next(c, s, a).processes[pid].policy, Next(c, s, a).store.approvals) == MissedAfter(s, a, pid)
  {
    hide Next, UnitCommits, Reachable, Invariant, Missed, MissedAfter;
    if IsUnit(a) {
      ReachableIsInvariant(c, s);
      UnitProcesses(c, s, a);
      UnitMissed(c, s, a, pid);
    } else {
      QuietMissed(c, s, a, pid);
    }
  }

  lemma QuietMissed(c: Config, s: System, a: Action, pid: nat)
    requires !IsUnit(a) && pid in Next(c, s, a).processes
    ensures Missed(Next(c, s, a).processes[pid].policy, Next(c, s, a).store.approvals) == MissedAfter(s, a, pid)
  {
    hide Next, UnitCommits;
    if a.FailUnit? {
      FailureStep(c, s, a, pid);
    } else {
      QuietStep(c, s, a, pid);
    }
  }

  lemma UnitProcesses(c: Config, s: System, a: Action)
    requires IsUnit(a)
    ensures Next(c, s, a).processes.Keys == s.processes.Keys
  {
    hide PrepareUnit, DecideUnit;
  }

  /** A unit that ends without effect leaves the store, and its process the policy it noted. */
  lemma FailureStep(c: Config, s: System, a: Action, pid: nat)
    requires (a.FailUnit? || IsUnit(a)) && !Commits(s, a)
    ensures var after := Next(c, s, a);
            && after.store == s.store && after.processes.Keys == s.processes.Keys
            && (pid in s.processes ==>
                  after.processes[pid].policy ==
                  (if PutsBack(s, a) && s.flights[a.flight].pid == pid then s.flights[a.flight].note.value else s.processes[pid].policy))
  {
    hide PrepareUnit, DecideUnit;
    if a.flight in s.flights && s.flights[a.flight].pid in s.processes {
      var f := s.flights[a.flight];
      RefusedUnits(s.store, s.processes[f.pid], f.derived, if f.Deciding? then f.verdict else Approve, if f.Deciding? then f.actor else "",
                   if IsUnit(a) then a.evicted else {});
    }
  }

  /** Only units touch approvals and engines; a start takes the recorded policy. */
  lemma QuietStep(c: Config, s: System, a: Action, pid: nat)
    requires !IsUnit(a) && !a.FailUnit? && pid in Next(c, s, a).processes
    ensures var after := Next(c, s, a);
            && after.store.approvals == s.store.approvals
            && (if pid in s.processes then after.processes[pid].policy.status == s.processes[pid].policy.status
                else a == Launch(pid) && Restart(s.store, Defaults(c)).Ok? && after.processes[pid].policy == GetOr(s.store.savedPolicy, Defaults(c).policy))
  {
    hide PublishCommit, PrepareUnit, DecideUnit, BeginDecision, AcceptInputs, Import;
  }

  lemma UnitMissed(c: Config, s: System, a: Action, pid: nat)
    requires Invariant(s) && IsUnit(a) && pid in s.processes
    ensures pid in Next(c, s, a).processes
    ensures Missed(Next(c, s, a).processes[pid].policy, Next(c, s, a).store.approvals) == MissedAfter(s, a, pid)
  {
    EnginesAreNeverAhead(s);
    hide Invariant, Missed;
    if a.FinishPrepare? {
      PrepareUnitMissed(c, s, a, pid);
    } else {
      DecideUnitMissed(c, s, a, pid);
    }
  }

  lemma EnginesAreNeverAhead(s: System)
    requires Invariant(s)
    ensures ProcessesBehind(s.processes, s.store.approvals)
    ensures forall pid :: pid in s.processes ==> NeverAhead(s.processes[pid].policy, s.store.approvals)
  {
    hide StoreInvariant, SoundBudget, NeverAhead, FlightsDerived;
  }

  lemma PrepareUnitMissed(c: Config, s: System, a: Action, pid: nat)
    requires a.FinishPrepare? && pid in s.processes
    ensures pid in Next(c, s, a).processes
    ensures Missed(Next(c, s, a).processes[pid].policy, Next(c, s, a).store.approvals) == MissedAfter(s, a, pid)
  {
    hide PrepareUnit, Missed, DecideUnit;
    if a.flight in s.flights && s.flights[a.flight].pid in s.processes && s.flights[a.flight].Preparing? {
      var f := s.flights[a.flight];
      PreparingMisses(s.store, s.processes[f.pid], s.processes[pid].policy, f.derived, a.evicted);
      RefusedUnits(s.store, s.processes[f.pid], f.derived, Approve, "", a.evicted);
    }
  }

  lemma DecideUnitMissed(c: Config, s: System, a: Action, pid: nat)
    requires a.FinishDecision? && pid in s.processes
    requires forall q :: q in s.processes ==> NeverAhead(s.processes[q].policy, s.store.approvals)
    ensures pid in Next(c, s, a).processes
    ensures Missed(Next(c, s, a).processes[pid].policy, Next(c, s, a).store.approvals) == MissedAfter(s, a, pid)
  {
    hide PrepareUnit, Missed, DecideUnit, NeverAhead;
    if a.flight in s.flights && s.flights[a.flight].pid in s.processes && s.flights[a.flight].Deciding? {
      var f := s.flights[a.flight];
      DecidingMisses(s.store, s.processes[f.pid], s.processes[pid].policy, f.derived, f.verdict, f.actor, a.evicted);
      RefusedUnits(s.store, s.processes[f.pid], f.derived, f.verdict, f.actor, a.evicted);
    }
  }

  lemma RefusedUnits(store: Store, process: Process, d: Derived, verdict: Verdict, actor: string, evicted: set<RequestId>)
    ensures var u := PrepareUnit(store, process, d, evicted); u.result.Err? ==> u.store == store && u.policy == process.policy
    ensures var u := DecideUnit(store, process, d, verdict, actor, evicted); u.result.Err? ==> u.store == store && u.policy == process.policy
  {
    hide CompareAndSwap, Undecided;
  }

  /** A preparation's unit makes its own engine miss what it evicts no more, and no other engine
      anything. */
  lemma PreparingMisses(store: Store, process: Process, other: Policy, d: Derived, evicted: set<RequestId>)
    ensures var u, before := PrepareUnit(store, process, d, evicted), Missed(process.policy, store.approvals);
            && Missed(u.policy, u.store.approvals) == (if u.result.Ok? then before - evicted else before)
            && Missed(other, u.store.approvals) == Missed(other, store.approvals)
  {
    assert Undecided(store, process.policy, d.requestId) ==> d.requestId !in Missed(process.policy, store.approvals);
    assert Missed(process.policy, store.approvals) <= process.policy.status.Keys;
  }

  /** A decision's unit makes every other engine that tracks the request miss it. */
  lemma DecidingMisses(store: Store, process: Process, other: Policy, d: Derived, verdict: Verdict, actor: string, evicted: set<RequestId>)
    requires NeverAhead(process.policy, store.approvals) && NeverAhead(other, store.approvals)
    ensures var u, before := DecideUnit(store, process, d, verdict, actor, evicted), Missed(process.policy, store.approvals);
            && Missed(u.policy, u.store.approvals) == (if u.result.Ok? then before - evicted else before)
            && Missed(other, u.store.approvals) ==
               Missed(other, store.approvals) + (if u.result.Ok? && d.requestId in other.status then {d.requestId} else {})
  {
    hide CompareAndSwap;
    assert Undecided(store, process.policy, d.requestId) ==> d.requestId !in Missed(process.policy, store.approvals);
    assert Missed(process.policy, store.approvals) <= process.policy.status.Keys;
  }

  /** The recorded policy changes only when a process records, and then misses what the recording
      engine does: a start after it disagrees exactly if the recorder did. */
  lemma SavedMissedStep(c: Config, s: System, a: Action)
    requires Reachable(c, s)
    ensures var after := Next(c, s, a);
            SavedMissed(after.store) ==
            if Commits(s, a) then MissedAfter(s, a, s.flights[a.flight].pid)
            else if (a.RecordEvaluation? || a.Close?) && a.pid in s.processes then Missed(s.processes[a.pid].policy, s.store.approvals)
            else SavedMissed(s.store)
  {
    hide Next, UnitCommits, Reachable, Missed, MissedAfter;
    if Commits(s, a) {
      UnitProcesses(c, s, a);
      UnitRecords(c, s, a);
      assert s.flights[a.flight].pid in s.processes by { CommitsInProcess(s, a); }
      MissedStep(c, s, a, s.flights[a.flight].pid);
    } else {
      QuietRecord(c, s, a);
    }
  }

  /** The system after a unit of either kind that commits. */
  lemma CommittedDecision(c: Config, s: System, flight: nat, evicted: set<RequestId>)
    requires Commits(s, FinishDecision(flight, evicted))
    ensures var f := s.flights[flight];
            var u := DecideUnit(s.store, s.processes[f.pid], f.derived, f.verdict, f.actor, evicted);
            && u.result.Ok?
            && Next(c, s, FinishDecision(flight, evicted)) == SetPolicy(s.(store := u.store, flights := s.flights - {flight}), f.pid, u.policy)
  {
    hide DecideUnit, PrepareUnit;
  }

  lemma CommittedPreparation(c: Config, s: System, flight: nat, evicted: set<RequestId>)
    requires Commits(s, FinishPrepare(flight, evicted))
    ensures var f := s.flights[flight];
            var u := PrepareUnit(s.store, s.processes[f.pid], f.derived, evicted);
            && u.result.Ok?
            && Next(c, s, FinishPrepare(flight, evicted)) == SetPolicy(s.(store := u.store, flights := s.flights - {flight}), f.pid, u.policy)
  {
    hide DecideUnit, PrepareUnit;
  }

  lemma CommitsInProcess(s: System, a: Action)
    requires Commits(s, a)
    ensures a.flight in s.flights && s.flights[a.flight].pid in s.processes
  {
  }

  lemma UnitRecords(c: Config, s: System, a: Action)
    requires Commits(s, a)
    ensures a.flight in s.flights && s.flights[a.flight].pid in Next(c, s, a).processes
    ensures Next(c, s, a).store.savedPolicy == Some(Next(c, s, a).processes[s.flights[a.flight].pid].policy)
  {
    hide CompareAndSwap, Undecided;
  }

  lemma QuietRecord(c: Config, s: System, a: Action)
    requires !Commits(s, a)
    ensures Next(c, s, a).store.approvals == s.store.approvals
    ensures Next(c, s, a).store.savedPolicy ==
            if (a.RecordEvaluation? || a.Close?) && a.pid in s.processes then Some(s.processes[a.pid].policy) else s.store.savedPolicy
  {
    hide PublishCommit, BeginDecision, AcceptInputs, Import, CompareAndSwap, Undecided;
  }

  /** A process starts in agreement with the store exactly when the recorded policy agrees. */
  lemma StartedAgreesIffRecordDoes(c: Config, s: System, pid: nat)
    requires Reachable(c, s) && pid !in s.processes && pid in Next(c, s, Launch(pid)).processes
    ensures Agrees(Next(c, s, Launch(pid)).processes[pid].policy, s.store.approvals) <==> SavedAgrees(s.store)
  {
    QuietStep(c, s, Launch(pid), pid);
    hide Agrees, Next;
    NothingTrackedAgrees(c, s.store.approvals);
  }

  lemma NothingTrackedAgrees(c: Config, approvals: map<RequestId, Approval>)
    ensures Agrees(Defaults(c).policy, approvals)
  {
  }

  /** A decision by another process leaves an engine in agreement exactly when it was and does not
      track the request. */
  lemma ForeignDecisionDisagreesIffTracked(c: Config, s: System, flight: nat, evicted: set<RequestId>, other: nat)
    requires Reachable(c, s) && Commits(s, FinishDecision(flight, evicted))
    requires other in s.processes && other != s.flights[flight].pid
    ensures var after := Next(c, s, FinishDecision(flight, evicted));
            && other in after.processes
            && (Agrees(after.processes[other].policy, after.store.approvals) <==>
                  Agrees(s.processes[other].policy, s.store.approvals)
                  && s.flights[flight].derived.requestId !in s.processes[other].policy.status)
  {
    hide Next, UnitCommits, Reachable, Agrees, Missed, Steps;
    var a := FinishDecision(flight, evicted);
    CommitsInProcess(s, a);
    UnitProcesses(c, s, a);
    MissedStep(c, s, a, other);
    AgreementIsMissingNothing(c, s, other);
    ReachableSteps(c, s, [a]);
    StepsOneMore(c, s, [], a);
    AgreementIsMissingNothing(c, Next(c, s, a), other);
    var before, request := Missed(s.processes[other].policy, s.store.approvals), s.flights[flight].derived.requestId;
    assert request in before + {request};
  }

  // ----- A run in which an engine misses a decision -----

  /** The state of an installation whose only process has prepared one commit. */
  function Prepared(c: Config, design: string, given: Inputs): System
    requires Derive(c.packages, [], design, given).Ok?
  {
    var p := PublishCommit(c.packages, [], {}, Fresh(c.limits), design, given);
    var process := Process(Defaults(c).policy, p.budget);
    var u := PrepareUnit(EMPTY_STORE, process, Derive(c.packages, [], design, given).value, {});
    System(u.store, p.artifacts, map[0 := process.(policy := u.policy)], map[])
  }

  lemma PreparedAlone(c: Config, subject: string, inputs: Inputs, actor: string)
    requires c.limits.Valid() && CanCreate(c.packages, EMPTY_STORE, Defaults(c), subject, inputs, Reviewed(None, None), actor)
    ensures var accepted := AcceptInputs(c.packages, subject, inputs).value;
            Reachable(c, Prepared(c, accepted.0, accepted.1))
  {
    hide Next, PublishCommit, PrepareUnit, AcceptInputs, Derive, Consume, Reachable, Steps, ReferencesReadable, Restart;
    var accepted := AcceptInputs(c.packages, subject, inputs).value;
    var launch, first, second := Launch(0), StartPrepare(0, 0, subject, inputs), FinishPrepare(0, {});
    FreshStartIsSound(c);
    PublicationSucceeds(c.packages, [], {}, Fresh(c.limits), accepted.0, accepted.1);
    PublicationIsDerivation(c.packages, [], {}, Fresh(c.limits), accepted.0, accepted.1);
    StartStep(c, INITIAL, 0);
    var s0 := Next(c, INITIAL, launch);
    assert s0 == INITIAL.(processes := map[0 := Defaults(c)]);
    var s1 := Next(c, s0, first);
    PublishingStep(c, s0, 0, 0, subject, inputs);
    var p, d := PublishCommit(c.packages, [], {}, Fresh(c.limits), accepted.0, accepted.1), Derive(c.packages, [], accepted.0, accepted.1).value;
    assert s1 == System(EMPTY_STORE, p.artifacts, map[0 := Process(Defaults(c).policy, p.budget)], map[0 := Preparing(0, d, None)]);
    FirstFinish(c, p.artifacts, Process(Defaults(c).policy, p.budget), d);
    InitialIsReachable(c);
    ReachableSteps(c, INITIAL, [launch] + [first] + [second]);
    StepsOneMore(c, INITIAL, [launch] + [first], second);
    StepsOneMore(c, INITIAL, [launch], first);
    StepsOneMore(c, INITIAL, [], launch);
  }

  lemma PublishingStep(c: Config, s: System, flight: nat, pid: nat, subject: string, inputs: Inputs)
    requires pid in s.processes && flight !in s.flights
    ensures Next(c, s, StartPrepare(flight, pid, subject, inputs)) == BeginPrepare(c, s, flight, pid, subject, inputs)
  {
    hide BeginPrepare;
  }

  lemma FirstFinish(c: Config, artifacts: set<string>, process: Process, d: Derived)
    requires process.policy.status == map[]
    ensures var u := PrepareUnit(EMPTY_STORE, process, d, {});
            Next(c, System(EMPTY_STORE, artifacts, map[0 := process], map[0 := Preparing(0, d, None)]), FinishPrepare(0, {})) ==
            System(u.store, artifacts, map[0 := process.(policy := u.policy)], map[])
  {
    FirstPreparation(process, d);
    UnitOfUndecided(EMPTY_STORE, process, d, {});
    hide PrepareUnit;
    var flights: map<nat, Flight> := map[0 := Preparing(0, d, None)];
    assert flights - {0} == map[];
  }

  lemma FreshStartIsSound(c: Config)
    requires c.limits.Valid()
    ensures SoundBudget(Fresh(c.limits)) && Restart(EMPTY_STORE, Defaults(c)) == Ok(Defaults(c))
  {
    LedgerRuns.FreshIsWellFormed(c.limits);
    LedgerRuns.FreshIsSafe(c.limits);
  }

  lemma InitialIsReachable(c: Config)
    requires c.limits.Valid()
    ensures Reachable(c, INITIAL)
  {
    assert Run(c, []) == INITIAL;
  }

  /** What the preparation left: the request pending in the engine, on the record and in the
      store, and ready to be decided. */
  predicate ReadyToDecide(c: Config, s: System, d: Derived) {
    && 0 in s.processes
    && BeginDecision(c.packages, s.store, s.artifacts, s.processes[0].policy, d.requestId, None, None) == Ok(d)
    && Undecided(s.store, s.processes[0].policy, d.requestId) && PRE_COMMIT_CAPABILITIES <= s.processes[0].policy.granted
    && TracksPending(s.processes[0].policy, d.requestId)
    && s.store.savedPolicy == Some(s.processes[0].policy)
    && s.store.savedBudget.Some? && s.store.savedBudget.value.reservations == []
    && Coherent(d) && DescribesPast(d, s.store.revisions)
  }

  predicate TracksPending(policy: Policy, request: RequestId) {
    request in policy.status && policy.status[request] == Pending
  }

  lemma PreparedIsReady(c: Config, subject: string, inputs: Inputs, actor: string)
    requires c.limits.Valid() && Sound(c.packages)
    requires CanCreate(c.packages, EMPTY_STORE, Defaults(c), subject, inputs, Reviewed(None, None), actor)
    ensures var accepted := AcceptInputs(c.packages, subject, inputs).value;
            ReadyToDecide(c, Prepared(c, accepted.0, accepted.1), Derive(c.packages, [], accepted.0, accepted.1).value)
  {
    hide Derive, ReferencesReadable, BeginDecision, Sound, Coherent, DescribesHead, DescribesPast;
    hide StoreInvariant, PublishCommit, PrepareUnit, Consume, Undecided, IsIdentifier;
    var accepted := AcceptInputs(c.packages, subject, inputs).value;
    var design, given := accepted.0, accepted.1;
    AcceptedAreIdentifiers(c.packages, subject, inputs);
    hide AcceptInputs;
    var d := Derive(c.packages, [], design, given).value;
    FreshStartIsSound(c);
    EmptyStoreIsInvariant();
    PublicationSucceeds(c.packages, [], {}, Fresh(c.limits), design, given);
    PublicationIsDerivation(c.packages, [], {}, Fresh(c.limits), design, given);
    PublicationKeepsReservations(c.packages, [], {}, Fresh(c.limits), design, given);
    DerivationIsCoherent(c.packages, [], design, given);
    var p := PublishCommit(c.packages, [], {}, Fresh(c.limits), design, given);
    var process := Process(Defaults(c).policy, p.budget);
    FirstPreparation(process, d);
    FreshPreparationBegins(c.packages, EMPTY_STORE, p.artifacts, process, design, given, Reviewed(None, None), {});
    PreparedCommitIsFound(EMPTY_STORE, process, d, {});
    PresentIsPast(d, []);
  }

  lemma EmptyStoreIsInvariant()
    ensures StoreInvariant(EMPTY_STORE)
  {
  }

  /** The first preparation of an installation. */
  lemma FirstPreparation(process: Process, d: Derived)
    requires process.policy.status == map[]
    ensures var u := PrepareUnit(EMPTY_STORE, process, d, {});
            && Undecided(EMPTY_STORE, process.policy, d.requestId) && NeverAhead(process.policy, map[])
            && TracksPending(u.policy, d.requestId) && u.policy.granted == process.policy.granted
            && u.store.savedPolicy == Some(u.policy) && u.store.savedBudget == Some(process.budget)
            && u.store.revisions == []
  {
  }

  lemma PublicationKeepsReservations(pk: Packages, rows: seq<Revision>, artifacts: set<string>, budget: Ledger, subject: string, inputs: Inputs)
    ensures PublishCommit(pk, rows, artifacts, budget, subject, inputs).budget.reservations == budget.reservations
  {
    hide DraftCommit, FinishCommit, Check;
  }

  /** Two processes are enough: one prepares, the second starts, and the first decides. The
      second then holds the request pending although the store holds the decision. */
  lemma DecisionElsewhereIsMissed(c: Config, subject: string, inputs: Inputs, verdict: Verdict, actor: string)
      returns (s: System, request: RequestId)
    requires c.limits.Valid() && Sound(c.packages)
    requires CanCreate(c.packages, EMPTY_STORE, Defaults(c), subject, inputs, Reviewed(None, None), actor)
    ensures Reachable(c, s) && 1 in s.processes
    ensures request in Missed(s.processes[1].policy, s.store.approvals) && !Agrees(s.processes[1].policy, s.store.approvals)
  {
    var accepted := AcceptInputs(c.packages, subject, inputs).value;
    var s0, d := Prepared(c, accepted.0, accepted.1), Derive(c.packages, [], accepted.0, accepted.1).value;
    request := d.requestId;
    PreparedAlone(c, subject, inputs, actor);
    PreparedIsReady(c, subject, inputs, actor);
    OnlyZero(c, accepted.0, accepted.1);
    hide CanCreate, AcceptInputs, Derive, Prepared;
    s := DecidedBesideAnother(c, s0, d, verdict, actor);
  }

  lemma OnlyZero(c: Config, design: string, given: Inputs)
    requires Derive(c.packages, [], design, given).Ok?
    ensures Prepared(c, design, given).processes.Keys == {0} && Prepared(c, design, given).flights == map[]
  {
    hide PublishCommit, PrepareUnit, Derive;
  }

  lemma DecidedBesideAnother(c: Config, s0: System, d: Derived, verdict: Verdict, actor: string) returns (s: System)
    requires Reachable(c, s0) && s0.processes.Keys == {0} && s0.flights == map[] && ReadyToDecide(c, s0, d)
    requires RequireIdentifier(actor, MAX_IDENTIFIER_LENGTH).Some?
    ensures Reachable(c, s) && 1 in s.processes
    ensures d.requestId in Missed(s.processes[1].policy, s.store.approvals) && !Agrees(s.processes[1].policy, s.store.approvals)
  {
    hide Reachable, BeginDecision, Coherent, DescribesPast, DecideUnit, Restart, Missed;
    hide Agrees, Next, Invariant, Steps, TracksPending, Undecided, RequireIdentifier;
    LaunchSucceeds(c, s0);
    StartTakesRecord(s0.store, Defaults(c));
    StartStep(c, s0, 1);
    ReachableSteps(c, s0, [Launch(1)]);
    StepsOneMore(c, s0, [], Launch(1));
    var s1 := Next(c, s0, Launch(1));
    s := DecidedBy(c, s1, 0, 0, d.requestId, d, verdict, actor);
    ReachableIsInvariant(c, s1);
    InvariantOfProcess(s1, 0);
    DecisionIsTaken(s1.store, s1.processes[0], d, verdict, RequireIdentifier(actor, MAX_IDENTIFIER_LENGTH).value, {});
    StillPending(s.processes[1].policy, s.store.approvals, d.requestId);
  }

  lemma StartStep(c: Config, s: System, pid: nat)
    requires pid !in s.processes && Restart(s.store, Defaults(c)).Ok?
    ensures Next(c, s, Launch(pid)) == s.(processes := s.processes[pid := Restart(s.store, Defaults(c)).value])
  {
    hide Restart;
  }

  lemma DecidedBy(c: Config, s: System, pid: nat, flight: nat, request: RequestId, d: Derived, verdict: Verdict, actor: string)
      returns (after: System)
    requires Reachable(c, s) && pid in s.processes && flight !in s.flights && RequireIdentifier(actor, MAX_IDENTIFIER_LENGTH).Some?
    requires BeginDecision(c.packages, s.store, s.artifacts, s.processes[pid].policy, request, None, None) == Ok(d)
    ensures Reachable(c, after)
    ensures after.store == DecideUnit(s.store, s.processes[pid], d, verdict, RequireIdentifier(actor, MAX_IDENTIFIER_LENGTH).value, {}).store
    ensures forall other :: other in s.processes && other != pid ==> other in after.processes && after.processes[other] == s.processes[other]
  {
    hide BeginDecision, DecideUnit, Reachable, Steps, RequireIdentifier;
    var third, fourth := StartDecision(flight, pid, request, verdict, actor, None, None), FinishDecision(flight, {});
    ReachableSteps(c, s, [third] + [fourth]);
    StepsOneMore(c, s, [], third);
    StepsOneMore(c, s, [third], fourth);
    after := Next(c, Next(c, s, third), fourth);
  }

  lemma StartTakesRecord(store: Store, defaults: Process)
    requires Restart(store, defaults).Ok? && store.savedPolicy.Some?
    ensures Restart(store, defaults).value.policy == store.savedPolicy.value
  {
  }

  lemma DecisionIsTaken(store: Store, process: Process, d: Derived, verdict: Verdict, actor: string, evicted: set<RequestId>)
    requires StoreInvariant(store) && NeverAhead(process.policy, store.approvals) && Coherent(d) && DescribesPast(d, store.revisions)
    requires Undecided(store, process.policy, d.requestId) && PRE_COMMIT_CAPABILITIES <= process.policy.granted
    ensures var after := DecideUnit(store, process, d, verdict, actor, evicted).store.approvals;
            d.requestId in after && after[d.requestId].status != Pending
  {
    DecideKeepsStore(store, process, d, verdict, actor, evicted);
    hide StoreInvariant, NeverAhead, Coherent, DescribesPast, CompareAndSwap;
  }

  lemma StillPending(policy: Policy, approvals: map<RequestId, Approval>, request: RequestId)
    requires TracksPending(policy, request) && request in approvals && approvals[request].status != Pending
    ensures request in Missed(policy, approvals) && !Agrees(policy, approvals)
  {
  }

  // ----- Threads of one process -----

  /** A unit notes the policy before it waits for the database. If another thread of its process
      decides a request while it waits, and it then fails, it puts back the policy it noted: the
      store keeps the decision, and the engine, whatever it knew meanwhile, misses the request
      exactly if it was tracked when the unit took its note. */
  lemma RollbackLosesDecisionIffTracked(c: Config, s: System, waiting: nat, deciding: nat, evicted: set<RequestId>)
    requires Reachable(c, s) && waiting in s.flights && s.flights[waiting].note.Some? && waiting != deciding
    requires Commits(s, FinishDecision(deciding, evicted)) && s.flights[deciding].pid == s.flights[waiting].pid
    ensures var pid, noted, request := s.flights[waiting].pid, s.flights[waiting].note.value, s.flights[deciding].derived.requestId;
            var decided := Next(c, s, FinishDecision(deciding, evicted));
            var failed := Next(c, decided, FailUnit(waiting));
            && pid in decided.processes && pid in failed.processes
            && Missed(decided.processes[pid].policy, decided.store.approvals) == Missed(s.processes[pid].policy, s.store.approvals) - evicted
            && failed.store == decided.store && failed.processes[pid].policy == noted
            && Missed(noted, failed.store.approvals) ==
                 Missed(noted, s.store.approvals) + (if request in noted.status then {request} else {})
            && (Agrees(noted, failed.store.approvals) <==> Agrees(noted, s.store.approvals) && request !in noted.status)
  {
    hide Next, Invariant, Reachable, UnitCommits, Missed, Agrees, NeverAhead, Later;
    ReachableIsInvariant(c, s);
    StepIsLater(c, s, FinishDecision(deciding, evicted));
    ReachableIsInvariant(c, Next(c, s, FinishDecision(deciding, evicted)));
    var a, pid, noted := FinishDecision(deciding, evicted), s.flights[waiting].pid, s.flights[waiting].note.value;
    var decided := Next(c, s, a);
    CommitsInProcess(s, a);
    UnitProcesses(c, s, a);
    MissedStep(c, s, a, pid);
    NotesAreNeverAhead(s, waiting);
    EnginesAreNeverAhead(s);
    DecidingBeside(c, s, waiting, deciding, evicted);
    FailureStep(c, decided, FailUnit(waiting), pid);
    NotesAreNeverAhead(decided, waiting);
    AgreesIffNothingMissed(noted, s.store.approvals);
    AgreesIffNothingMissed(noted, decided.store.approvals);
  }

  /** A committed decision leaves every other unit as it waits, and any noted policy that tracks
      the request misses it. */
  lemma DecidingBeside(c: Config, s: System, waiting: nat, deciding: nat, evicted: set<RequestId>)
    requires waiting in s.flights && s.flights[waiting].note.Some? && waiting != deciding && Commits(s, FinishDecision(deciding, evicted))
    requires NeverAhead(s.flights[waiting].note.value, s.store.approvals) && ProcessesBehind(s.processes, s.store.approvals)
    ensures var after, noted, request := Next(c, s, FinishDecision(deciding, evicted)), s.flights[waiting].note.value, s.flights[deciding].derived.requestId;
            && waiting in after.flights && after.flights[waiting] == s.flights[waiting]
            && Missed(noted, after.store.approvals) ==
                 Missed(noted, s.store.approvals) + (if request in noted.status then {request} else {})
  {
    hide Next, DecideUnit, PrepareUnit, Missed, NeverAhead, SoundBudget;
    CommittedDecision(c, s, deciding, evicted);
    var f := s.flights[deciding];
    DecidingMisses(s.store, s.processes[f.pid], s.flights[waiting].note.value, f.derived, f.verdict, f.actor, evicted);
  }

  lemma NotesAreNeverAhead(s: System, flight: nat)
    requires Invariant(s) && flight in s.flights && s.flights[flight].note.Some?
    ensures NeverAhead(s.flights[flight].note.value, s.store.approvals)
  {
    hide StoreInvariant, SoundBudget, NeverAhead, FlightsDerived;
  }
}
