/** Whole runs of the commit protocol: any number of processes sharing one store, with the
    two halves of every operation interleaved, units that fail, processes that crash at any
    point, restart and close, and other clients of the same budget and policy. */
module ProtocolRuns {
  import opened Wrappers
  import opened Identifiers
  import Usage
  import opened Ledgers
  import opened Revisions
  import opened Protocol
  import opened ProtocolInvariant
  import LedgerImports
  import LedgerRuns

  datatype Config = Config(packages: Packages, grants: set<string>, limits: RunBudget)

  /** An operation between its two halves: derived, but its unit of work not yet run. A unit notes
      the policy of its process as it begins, and may then have to wait for the database. */
  datatype Flight =
    | Preparing(pid: nat, derived: Derived, note: Option<Policy>)
    | Deciding(pid: nat, derived: Derived, verdict: Verdict, actor: string, note: Option<Policy>)

  datatype System = System(store: Store, artifacts: set<string>, processes: map<nat, Process>, flights: map<nat, Flight>)

  const INITIAL := System(EMPTY_STORE, {}, map[], map[])

  datatype Action =
    | Launch(pid: nat)
    | Crash(pid: nat)
    | Close(pid: nat)
    | StartPrepare(flight: nat, pid: nat, subject: string, inputs: Inputs)
    | FinishPrepare(flight: nat, evicted: set<RequestId>)
    | StartDecision(flight: nat, pid: nat, request: RequestId, verdict: Verdict, actor: string,
                    expectedState: Option<StateDigest>, expectedAction: Option<ActionDigest>)
    | FinishDecision(flight: nat, evicted: set<RequestId>)
    | OpenUnit(flight: nat)
    | FailUnit(flight: nat)
    | RecordEvaluation(pid: nat)
    | Spend(pid: nat, call: LedgerRuns.Call)
    | Grant(pid: nat, capability: string)
    | Revoke(pid: nat, capability: string)

  function Defaults(c: Config): Process {
    Process(Policy(c.grants, map[]), Fresh(c.limits))
  }

  function Forget(s: System, pid: nat): System {
    s.(processes := s.processes - {pid}, flights := map f | f in s.flights && s.flights[f].pid != pid :: s.flights[f])
  }

  function SetPolicy(s: System, pid: nat, p: Policy): System
    requires pid in s.processes
  {
    s.(processes := s.processes[pid := s.processes[pid].(policy := p)])
  }

  /** Publish and derive; the operation stays in flight only if the derivation succeeds. */
  function BeginPrepare(c: Config, s: System, flight: nat, pid: nat, subject: string, inputs: Inputs): System
    requires pid in s.processes
  {
    var accepted := AcceptInputs(c.packages, subject, inputs);
    if accepted.Err? then s
    else
      var p := PublishCommit(c.packages, s.store.revisions, s.artifacts, s.processes[pid].budget, accepted.value.0, accepted.value.1);
      var spent := s.(artifacts := p.artifacts, processes := s.processes[pid := s.processes[pid].(budget := p.budget)]);
      if p.result.Err? then spent else spent.(flights := s.flights[flight := Preparing(pid, p.result.value, None)])
  }

  /** The policy a unit leaves in memory. One that fails, or refuses, puts back the policy it
      noted, whatever other threads of the process did since; if it did not wait, that is the
      policy it found. */
  function PolicyLeft<T>(f: Flight, u: Unit<T>): Policy {
    if u.result.Err? then GetOr(f.note, u.policy) else u.policy
  }

  /** The unit ended without effect. */
  function PutBack(s: System, flight: nat): System {
    var rest := s.(flights := s.flights - {flight});
    if flight !in s.flights || s.flights[flight].note.None? || s.flights[flight].pid !in s.processes then rest
    else SetPolicy(rest, s.flights[flight].pid, s.flights[flight].note.value)
  }

  /** One atomic step. An action that is not enabled changes nothing. */
  function Next(c: Config, s: System, a: Action): System {
    match a
    case Launch(pid) =>
      var restored := Restart(s.store, Defaults(c));
      if pid in s.processes || restored.Err? then s else s.(processes := s.processes[pid := restored.value])
    case Crash(pid) => Forget(s, pid)
    case Close(pid) =>
      if pid !in s.processes then s
      else Forget(s.(store := Persisted(s.store, s.processes[pid].policy, s.processes[pid].budget)), pid)
    case StartPrepare(flight, pid, subject, inputs) =>
      if pid !in s.processes || flight in s.flights then s else BeginPrepare(c, s, flight, pid, subject, inputs)
    case FinishPrepare(flight, evicted) =>
      if flight !in s.flights || !s.flights[flight].Preparing? || s.flights[flight].pid !in s.processes then s
      else
        var f := s.flights[flight];
        var u := PrepareUnit(s.store, s.processes[f.pid], f.derived, evicted);
        SetPolicy(s.(store := u.store, flights := s.flights - {flight}), f.pid, PolicyLeft(f, u))
    case StartDecision(flight, pid, request, verdict, actor, expectedState, expectedAction) =>
      if pid !in s.processes || flight in s.flights then s
      else
        var named := RequireIdentifier(actor, MAX_IDENTIFIER_LENGTH);
        var begun := BeginDecision(c.packages, s.store, s.artifacts, s.processes[pid].policy, request, expectedState, expectedAction);
        if named.None? || begun.Err? then s
        else s.(flights := s.flights[flight := Deciding(pid, begun.value, verdict, named.value, None)])
    case FinishDecision(flight, evicted) =>
      if flight !in s.flights || !s.flights[flight].Deciding? || s.flights[flight].pid !in s.processes then s
      else
        var f := s.flights[flight];
        var u := DecideUnit(s.store, s.processes[f.pid], f.derived, f.verdict, f.actor, evicted);
        SetPolicy(s.(store := u.store, flights := s.flights - {flight}), f.pid, PolicyLeft(f, u))
    case OpenUnit(flight) =>
      if flight !in s.flights || s.flights[flight].note.Some? || s.flights[flight].pid !in s.processes then s
      else s.(flights := s.flights[flight := s.flights[flight].(note := Some(s.processes[s.flights[flight].pid].policy))])
    case FailUnit(flight) => PutBack(s, flight)
    case RecordEvaluation(pid) =>
      if pid !in s.processes then s
      else s.(store := Persisted(s.store.(journal := s.store.journal + [OtherEvent]), s.processes[pid].policy, s.processes[pid].budget))
    case Spend(pid, call) =>
      if pid !in s.processes then s
      else s.(processes := s.processes[pid := s.processes[pid].(budget := LedgerRuns.Step(s.processes[pid].budget, call))])
    case Grant(pid, capability) =>
      if pid !in s.processes then s
      else SetPolicy(s, pid, s.processes[pid].policy.(granted := s.processes[pid].policy.granted + {capability}))
    case Revoke(pid, capability) =>
      if pid !in s.processes then s
      else SetPolicy(s, pid, s.processes[pid].policy.(granted := s.processes[pid].policy.granted - {capability}))
  }

  /** The unit in flight succeeds, and so ends with the process's record. */
  predicate UnitCommits(s: System, flight: nat, evicted: set<RequestId>) {
    flight in s.flights && s.flights[flight].pid in s.processes &&
    var f := s.flights[flight];
    if f.Preparing? then PrepareUnit(s.store, s.processes[f.pid], f.derived, evicted).result.Ok?
    else DecideUnit(s.store, s.processes[f.pid], f.derived, f.verdict, f.actor, evicted).result.Ok?
  }

  function Steps(c: Config, s: System, actions: seq<Action>): System {
    if actions == [] then s else Next(c, Steps(c, s, actions[..|actions| - 1]), actions[|actions| - 1])
  }

  lemma {:induction false} StepsConcat(c: Config, s: System, a: seq<Action>, b: seq<Action>)
    ensures Steps(c, s, a + b) == Steps(c, Steps(c, s, a), b)
  {
    hide Next;
    if b == [] {
      assert a + b == a;
    } else {
      var shorter := b[..|b| - 1];
      assert (a + b)[..|a + b| - 1] == a + shorter;
      StepsConcat(c, s, a, shorter);
    }
  }

  lemma StepsOneMore(c: Config, s: System, actions: seq<Action>, a: Action)
    ensures Steps(c, s, actions + [a]) == Next(c, Steps(c, s, actions), a)
    ensures Steps(c, s, [a]) == Next(c, s, a) && Steps(c, s, []) == s
  {
    hide Next;
    assert (actions + [a])[..|actions|] == actions && [a][..0] == [];
  }

  /** What a list of actions makes of an empty installation. */
  function Run(c: Config, actions: seq<Action>): System {
    Steps(c, INITIAL, actions)
  }

  // ----- The invariant of every run -----

  predicate SoundBudget(l: Ledger) {
    LedgerRuns.WellFormed(l) && LedgerRuns.Safe(l) && LedgerRuns.Issued(l) && l.budget.Valid()
  }

  predicate ProcessesBehind(processes: map<nat, Process>, approvals: map<RequestId, Approval>) {
    forall pid :: pid in processes ==> NeverAhead(processes[pid].policy, approvals) && SoundBudget(processes[pid].budget)
  }

  predicate NotesBehind(flights: map<nat, Flight>, approvals: map<RequestId, Approval>) {
    forall f :: f in flights && flights[f].note.Some? ==> NeverAhead(flights[f].note.value, approvals)
  }

  predicate FlightsDerived(flights: map<nat, Flight>, rows: seq<Revision>) {
    forall f :: f in flights ==> Coherent(flights[f].derived) && DescribesPast(flights[f].derived, rows)
  }

  ghost predicate Invariant(s: System) {
    && StoreInvariant(s.store)
    && (s.store.savedBudget.Some? ==> SoundBudget(s.store.savedBudget.value))
    && ProcessesBehind(s.processes, s.store.approvals)
    && NotesBehind(s.flights, s.store.approvals)
    && FlightsDerived(s.flights, s.store.revisions)
  }

  lemma InvariantOfProcess(s: System, pid: nat)
    requires Invariant(s) && pid in s.processes
    ensures StoreInvariant(s.store) && NeverAhead(s.processes[pid].policy, s.store.approvals)
  {
  }

  /** What the store never takes back: rows and events are only appended, and an approval
      that carries a decision keeps it. */
  predicate Evolves(before: Store, after: Store) {
    && before.revisions <= after.revisions
    && before.journal <= after.journal
    && (forall r :: r in before.approvals ==> r in after.approvals)
    && (forall r :: r in before.approvals && IsDecided(before.approvals, r) ==> after.approvals[r] == before.approvals[r])
  }

  // ----- The invariant is kept by every step -----

  lemma BehindSurvives(policy: Policy, before: Store, after: Store)
    requires NeverAhead(policy, before.approvals) && ApprovalsWellFormed(before.approvals)
    requires Evolves(before, after)
    ensures NeverAhead(policy, after.approvals)
  {
  }

  lemma UnitsEvolve(store: Store, process: Process, d: Derived, verdict: Verdict, actor: string, evicted: set<RequestId>)
    ensures Evolves(store, PrepareUnit(store, process, d, evicted).store)
    ensures Evolves(store, DecideUnit(store, process, d, verdict, actor, evicted).store)
  {
  }

  /** The rest of the system after one unit of work of process `pid`. */
  lemma UnitKeepsSystem(s: System, flight: nat, pid: nat, u: Store, policy: Policy)
    requires Invariant(s) && pid in s.processes
    requires StoreInvariant(u) && NeverAhead(policy, u.approvals) && Evolves(s.store, u)
    requires u.savedBudget in {s.store.savedBudget, Some(s.processes[pid].budget)}
    ensures Invariant(SetPolicy(s.(store := u, flights := s.flights - {flight}), pid, policy))
  {
    var after := SetPolicy(s.(store := u, flights := s.flights - {flight}), pid, policy);
    forall q | q in after.processes
      ensures NeverAhead(after.processes[q].policy, u.approvals) && SoundBudget(after.processes[q].budget)
    {
      if q != pid {
        BehindSurvives(s.processes[q].policy, s.store, u);
      }
    }
    forall f | f in after.flights && after.flights[f].note.Some?
      ensures NeverAhead(after.flights[f].note.value, u.approvals)
    {
      BehindSurvives(s.flights[f].note.value, s.store, u);
    }
    forall f | f in after.flights
      ensures Coherent(after.flights[f].derived) && DescribesPast(after.flights[f].derived, u.revisions)
    {
      PastStaysPast(s.flights[f].derived, s.store.revisions, u.revisions);
    }
  }

  lemma ProcessChangeKeepsInvariant(s: System, pid: nat, process: Process)
    requires Invariant(s) && NeverAhead(process.policy, s.store.approvals) && SoundBudget(process.budget)
    ensures Invariant(s.(processes := s.processes[pid := process]))
  {
    hide StoreInvariant, NeverAhead, SoundBudget, DescribesPast, Coherent;
  }

  lemma FlightKeepsInvariant(s: System, flight: nat, f: Flight)
    requires Invariant(s) && Coherent(f.derived) && DescribesPast(f.derived, s.store.revisions)
    requires f.note.Some? ==> NeverAhead(f.note.value, s.store.approvals)
    ensures Invariant(s.(flights := s.flights[flight := f]))
  {
    hide StoreInvariant, NeverAhead, SoundBudget, DescribesPast, Coherent;
  }

  lemma ForgetKeepsInvariant(s: System, pid: nat, flight: nat)
    requires Invariant(s)
    ensures Invariant(Forget(s, pid)) && Invariant(s.(flights := s.flights - {flight})) && Invariant(PutBack(s, flight))
  {
    hide StoreInvariant, NeverAhead, SoundBudget, DescribesPast, Coherent;
  }

  lemma BeginPrepareKeepsInvariant(c: Config, s: System, flight: nat, pid: nat, subject: string, inputs: Inputs)
    requires Invariant(s) && pid in s.processes
    ensures Invariant(BeginPrepare(c, s, flight, pid, subject, inputs))
    ensures BeginPrepare(c, s, flight, pid, subject, inputs).store == s.store
    ensures s.artifacts <= BeginPrepare(c, s, flight, pid, subject, inputs).artifacts
  {
    var accepted := AcceptInputs(c.packages, subject, inputs);
    if accepted.Ok? {
      var design, given := accepted.value.0, accepted.value.1;
      var rows, budget := s.store.revisions, s.processes[pid].budget;
      PublicationIsDerivation(c.packages, rows, s.artifacts, budget, design, given);
      hide AcceptInputs, PublishCommit, Derive, NeverAhead, StoreInvariant, SoundBudget, DescribesPast, Coherent, DescribesHead;
      var p := PublishCommit(c.packages, rows, s.artifacts, budget, design, given);
      ProcessChangeKeepsInvariant(s, pid, s.processes[pid].(budget := p.budget));
      if p.result.Ok? {
        DerivationIsCoherent(c.packages, rows, design, given);
        PresentIsPast(p.result.value, rows);
        FlightKeepsInvariant(s, flight, Preparing(pid, p.result.value, None));
      }
    }
  }

  /** Publishing derives the same commit as deriving alone, and charges the ledger at most
      the report. */
  lemma PublicationIsDerivation(pk: Packages, rows: seq<Revision>, artifacts: set<string>, budget: Ledger, subject: string, inputs: Inputs)
    requires SoundBudget(budget)
    ensures var p := PublishCommit(pk, rows, artifacts, budget, subject, inputs);
            && (p.result.Ok? ==> p.result == Derive(pk, rows, subject, inputs) && p.result.value.artifact.content in p.artifacts)
            && SoundBudget(p.budget) && Usage.Dominates(p.budget.usage, budget.usage) && artifacts <= p.artifacts
  {
    var draft := DraftCommit(pk, rows, subject, inputs);
    if draft.Ok? {
      SpendingIsSound(budget, LedgerRuns.CallConsume(ArtifactCharge(draft.value.report)));
    }
  }

  lemma PresentIsPast(d: Derived, rows: seq<Revision>)
    requires DescribesHead(d, rows)
    ensures DescribesPast(d, rows)
  {
    assert rows[..|rows|] == rows;
  }

  lemma CheckedDerivationIsCoherent(pk: Packages, rows: seq<Revision>, artifacts: set<string>, subject: string, inputs: Inputs)
    requires DeriveAgainstStore(pk, rows, artifacts, subject, inputs).Ok?
    ensures var d := DeriveAgainstStore(pk, rows, artifacts, subject, inputs).value;
            Coherent(d) && DescribesHead(d, rows)
  {
    assert DeriveAgainstStore(pk, rows, artifacts, subject, inputs) == Derive(pk, rows, subject, inputs);
    DerivationIsCoherent(pk, rows, subject, inputs);
  }

  lemma RederivationIsCoherent(pk: Packages, rows: seq<Revision>, artifacts: set<string>, prepared: Preparation)
    requires Rederive(pk, rows, artifacts, prepared).Ok?
    ensures var d := Rederive(pk, rows, artifacts, prepared).value;
            Coherent(d) && DescribesHead(d, rows) && d.requestId == prepared.requestId
  {
    hide DeriveAgainstStore, Coherent, DescribesHead, RequireText;
    var design, domain := RequireIdentifier(prepared.designId, MAX_DESIGN_ID_LENGTH), RequireIdentifier(prepared.domain, MAX_IDENTIFIER_LENGTH);
    var inputs := Inputs(domain.value, Some(prepared.summary), Some(prepared.parameters), prepared.parentRevisionId,
                         prepared.parents, prepared.transformations, prepared.workflowId);
    CheckedDerivationIsCoherent(pk, rows, artifacts, design.value, inputs);
  }

  lemma BegunDecisionIsDerived(pk: Packages, store: Store, artifacts: set<string>, policy: Policy, request: RequestId,
                               expectedState: Option<StateDigest>, expectedAction: Option<ActionDigest>)
    requires BeginDecision(pk, store, artifacts, policy, request, expectedState, expectedAction).Ok?
    ensures var d := BeginDecision(pk, store, artifacts, policy, request, expectedState, expectedAction).value;
            Coherent(d) && DescribesHead(d, store.revisions)
  {
    hide Rederive, Coherent, DescribesHead;
    RederivationIsCoherent(pk, store.revisions, artifacts, PreparedCommit(store.journal, request).value);
  }

  lemma RestartIsSound(c: Config, s: System)
    requires Invariant(s) && c.limits.Valid() && Restart(s.store, Defaults(c)).Ok?
    ensures var restored := Restart(s.store, Defaults(c)).value;
            NeverAhead(restored.policy, s.store.approvals) && SoundBudget(restored.budget)
    ensures var restored := Restart(s.store, Defaults(c)).value;
            && (s.store.savedPolicy.Some? ==> restored.policy == s.store.savedPolicy.value)
            && (s.store.savedBudget.Some? ==> restored.budget == s.store.savedBudget.value)
  {
    LedgerRuns.FreshIsWellFormed(c.limits);
    LedgerRuns.FreshIsSafe(c.limits);
    if s.store.savedBudget.Some? {
      LedgerImports.ExportThenImport(s.store.savedBudget.value, Fresh(c.limits));
    }
  }

  lemma RecordKeepsStore(store: Store, process: Process)
    requires StoreInvariant(store) && NeverAhead(process.policy, store.approvals)
    ensures StoreInvariant(Persisted(store, process.policy, process.budget))
    ensures StoreInvariant(Persisted(store.(journal := store.journal + [OtherEvent]), process.policy, process.budget))
  {
    var journal := store.journal + [OtherEvent];
    forall t: Topic
      ensures Select(journal, t) == Select(store.journal, t)
    {
      SelectAppended(store.journal, OtherEvent, t);
    }
    ConflictsStayReal(store.journal, OtherEvent, store.revisions, store.revisions);
    assert DecisionsRecorded(journal, store.approvals) by {
      assert forall r: RequestId :: Select(store.journal, DecisionOf(r)) == ExpectedDecisions(store.approvals, r);
    }
    assert OutcomesRecorded(journal, store.approvals) by {
      assert forall r: RequestId :: OutcomeFits(Select(store.journal, OutcomeOf(r)), store.approvals, r);
    }
    assert CreationsRecorded(journal, store.approvals, store.revisions) by {
      assert forall id: string :: CreationsFit(Select(store.journal, CreationOf(id)), store.approvals, store.revisions, id);
    }
  }

  lemma UnitsRecordBudget(store: Store, process: Process, d: Derived, verdict: Verdict, actor: string, evicted: set<RequestId>)
    ensures PrepareUnit(store, process, d, evicted).store.savedBudget in {store.savedBudget, Some(process.budget)}
    ensures DecideUnit(store, process, d, verdict, actor, evicted).store.savedBudget in {store.savedBudget, Some(process.budget)}
  {
    hide CompareAndSwap, Undecided;
  }

  lemma FinishPrepareKeepsInvariant(s: System, flight: nat, evicted: set<RequestId>)
    requires Invariant(s) && flight in s.flights && s.flights[flight].pid in s.processes && s.flights[flight].Preparing?
    ensures var f := s.flights[flight];
            var u := PrepareUnit(s.store, s.processes[f.pid], f.derived, evicted);
            Invariant(SetPolicy(s.(store := u.store, flights := s.flights - {flight}), f.pid, PolicyLeft(f, u))) && Evolves(s.store, u.store)
  {
    var f := s.flights[flight];
    var process := s.processes[f.pid];
    var u := PrepareUnit(s.store, process, f.derived, evicted);
    PrepareKeepsStore(s.store, process, f.derived, evicted);
    UnitsEvolve(s.store, process, f.derived, Approve, "", evicted);
    UnitsRecordBudget(s.store, process, f.derived, Approve, "", evicted);
    hide StoreInvariant, NeverAhead, Coherent, DescribesPast, Evolves, SoundBudget, PrepareUnit, DecideUnit;
    UnitKeepsSystem(s, flight, f.pid, u.store, PolicyLeft(f, u));
  }

  lemma FinishDecisionKeepsInvariant(s: System, flight: nat, evicted: set<RequestId>)
    requires Invariant(s) && flight in s.flights && s.flights[flight].pid in s.processes && s.flights[flight].Deciding?
    ensures var f := s.flights[flight];
            var u := DecideUnit(s.store, s.processes[f.pid], f.derived, f.verdict, f.actor, evicted);
            Invariant(SetPolicy(s.(store := u.store, flights := s.flights - {flight}), f.pid, PolicyLeft(f, u))) && Evolves(s.store, u.store)
  {
    var f := s.flights[flight];
    var process := s.processes[f.pid];
    var u := DecideUnit(s.store, process, f.derived, f.verdict, f.actor, evicted);
    DecideKeepsStore(s.store, process, f.derived, f.verdict, f.actor, evicted);
    UnitsEvolve(s.store, process, f.derived, f.verdict, f.actor, evicted);
    UnitsRecordBudget(s.store, process, f.derived, f.verdict, f.actor, evicted);
    hide StoreInvariant, NeverAhead, Coherent, DescribesPast, Evolves, SoundBudget, PrepareUnit, DecideUnit;
    UnitKeepsSystem(s, flight, f.pid, u.store, PolicyLeft(f, u));
  }

  lemma RecordKeepsInvariant(s: System, pid: nat)
    requires Invariant(s) && pid in s.processes
    ensures var process := s.processes[pid];
            && Invariant(s.(store := Persisted(s.store, process.policy, process.budget)))
            && Invariant(s.(store := Persisted(s.store.(journal := s.store.journal + [OtherEvent]), process.policy, process.budget)))
  {
    RecordKeepsStore(s.store, s.processes[pid]);
    hide StoreInvariant, NeverAhead, SoundBudget, DescribesPast, Coherent;
  }

  lemma StepKeepsInvariant(c: Config, s: System, a: Action)
    requires Invariant(s) && c.limits.Valid()
    ensures Invariant(Next(c, s, a)) && Evolves(s.store, Next(c, s, a).store) && s.artifacts <= Next(c, s, a).artifacts
  {
    hide StoreInvariant, SoundBudget, DescribesPast, Coherent, DescribesHead;
    hide BeginPrepare, BeginDecision, Restart, PrepareUnit, DecideUnit, RequireIdentifier;
    match a
    case Launch(pid) =>
      if pid !in s.processes && Restart(s.store, Defaults(c)).Ok? {
        RestartIsSound(c, s);
        ProcessChangeKeepsInvariant(s, pid, Restart(s.store, Defaults(c)).value);
      }
    case Crash(pid) => ForgetKeepsInvariant(s, pid, 0);
    case Close(pid) =>
      if pid in s.processes {
        RecordKeepsInvariant(s, pid);
        ForgetKeepsInvariant(s.(store := Persisted(s.store, s.processes[pid].policy, s.processes[pid].budget)), pid, 0);
      }
    case StartPrepare(flight, pid, subject, inputs) =>
      if pid in s.processes {
        BeginPrepareKeepsInvariant(c, s, flight, pid, subject, inputs);
      }
    case FinishPrepare(flight, evicted) =>
      if flight in s.flights && s.flights[flight].pid in s.processes && s.flights[flight].Preparing? {
        FinishPrepareKeepsInvariant(s, flight, evicted);
      }
    case StartDecision(flight, pid, request, verdict, actor, expectedState, expectedAction) =>
      if pid in s.processes {
        var begun := BeginDecision(c.packages, s.store, s.artifacts, s.processes[pid].policy, request, expectedState, expectedAction);
        if begun.Ok? {
          BegunDecisionIsDerived(c.packages, s.store, s.artifacts, s.processes[pid].policy, request, expectedState, expectedAction);
          PresentIsPast(begun.value, s.store.revisions);
          var named := RequireIdentifier(actor, MAX_IDENTIFIER_LENGTH);
          if named.Some? {
            FlightKeepsInvariant(s, flight, Deciding(pid, begun.value, verdict, named.value, None));
          }
        }
      }
    case FinishDecision(flight, evicted) =>
      if flight in s.flights && s.flights[flight].pid in s.processes && s.flights[flight].Deciding? {
        FinishDecisionKeepsInvariant(s, flight, evicted);
      }
    case OpenUnit(flight) =>
      if flight in s.flights && s.flights[flight].pid in s.processes {
        FlightKeepsInvariant(s, flight, s.flights[flight].(note := Some(s.processes[s.flights[flight].pid].policy)));
      }
    case FailUnit(flight) => ForgetKeepsInvariant(s, 0, flight);
    case RecordEvaluation(pid) =>
      if pid in s.processes {
        RecordKeepsInvariant(s, pid);
      }
    case Spend(pid, call) =>
      if pid in s.processes {
        SpendingIsSound(s.processes[pid].budget, call);
        ProcessChangeKeepsInvariant(s, pid, s.processes[pid].(budget := LedgerRuns.Step(s.processes[pid].budget, call)));
      }
    case Grant(pid, capability) =>
      if pid in s.processes {
        var p := s.processes[pid].policy;
        ProcessChangeKeepsInvariant(s, pid, s.processes[pid].(policy := p.(granted := p.granted + {capability})));
      }
    case Revoke(pid, capability) =>
      if pid in s.processes {
        var p := s.processes[pid].policy;
        ProcessChangeKeepsInvariant(s, pid, s.processes[pid].(policy := p.(granted := p.granted - {capability})));
      }
  }

  lemma SpendingIsSound(l: Ledger, call: LedgerRuns.Call)
    requires SoundBudget(l)
    ensures SoundBudget(LedgerRuns.Step(l, call)) && Usage.Dominates(LedgerRuns.Step(l, call).usage, l.usage)
  {
    LedgerRuns.CallKeepsInvariant(l, call);
    LedgerRuns.CallKeepsIssued(l, call);
  }

  lemma EvolvesIsTransitive(a: Store, b: Store, d: Store)
    requires Evolves(a, b) && Evolves(b, d)
    ensures Evolves(a, d)
  {
  }

  lemma {:induction false} StepsKeepInvariant(c: Config, s: System, actions: seq<Action>)
    requires c.limits.Valid() && Invariant(s)
    ensures Invariant(Steps(c, s, actions)) && Evolves(s.store, Steps(c, s, actions).store) && s.artifacts <= Steps(c, s, actions).artifacts
  {
    hide Next, Invariant;
    if actions != [] {
      var earlier := actions[..|actions| - 1];
      StepsKeepInvariant(c, s, earlier);
      StepKeepsInvariant(c, Steps(c, s, earlier), actions[|actions| - 1]);
      EvolvesIsTransitive(s.store, Steps(c, s, earlier).store, Steps(c, s, actions).store);
    }
  }

  lemma InitialIsInvariant()
    ensures Invariant(INITIAL)
  {
  }

  // ----- Reachable states -----

  /** Some run ends in this state. */
  ghost predicate Reachable(c: Config, s: System) {
    c.limits.Valid() && exists actions :: s == Run(c, actions)
  }

  /** Some run passes through the first state and ends in the second. */
  ghost predicate Later(c: Config, before: System, after: System) {
    Reachable(c, before) && exists actions :: after == Steps(c, before, actions)
  }

  lemma ReachableIsInvariant(c: Config, s: System)
    requires Reachable(c, s)
    ensures Invariant(s)
  {
    hide Next, Invariant;
    var actions :| s == Run(c, actions);
    InitialIsInvariant();
    StepsKeepInvariant(c, INITIAL, actions);
  }

  /** Reachable states are closed under steps, and every state so reached is a later one. */
  lemma ReachableSteps(c: Config, s: System, more: seq<Action>)
    requires Reachable(c, s)
    ensures Reachable(c, Steps(c, s, more)) && Later(c, s, Steps(c, s, more))
  {
    hide Next;
    var actions :| s == Run(c, actions);
    StepsConcat(c, INITIAL, actions, more);
    assert Steps(c, s, more) == Run(c, actions + more);
  }

  lemma StepIsLater(c: Config, s: System, a: Action)
    requires Reachable(c, s)
    ensures Reachable(c, Next(c, s, a)) && Later(c, s, Next(c, s, a))
  {
    hide Next, Reachable, Later;
    StepsOneMore(c, s, [], a);
    ReachableSteps(c, s, [a]);
  }

  lemma LaterIsTransitive(c: Config, s0: System, s1: System, s2: System)
    requires Later(c, s0, s1) && Later(c, s1, s2)
    ensures Later(c, s0, s2)
  {
    hide Next, Reachable;
    var a :| s1 == Steps(c, s0, a);
    var b :| s2 == Steps(c, s1, b);
    StepsConcat(c, s0, a, b);
  }

  lemma LaterEvolves(c: Config, before: System, after: System)
    requires Later(c, before, after)
    ensures Reachable(c, after) && Invariant(before) && Invariant(after)
    ensures Evolves(before.store, after.store) && before.artifacts <= after.artifacts
  {
    hide Next, Invariant;
    var actions :| after == Steps(c, before, actions);
    ReachableSteps(c, before, actions);
    ReachableIsInvariant(c, before);
    StepsKeepInvariant(c, before, actions);
  }
}
