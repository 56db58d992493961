/** Creating a revision in one call (`create_design_revision`): exactly when it succeeds, and that
    it is a run of the two-phase protocol. */
module ProtocolProgress {
  import opened Wrappers
  import opened Identifiers
  import opened Ledgers
  import LedgerRuns
  import opened Revisions
  import opened Rederivation
  import opened Protocol
  import opened ProtocolInvariant
  import opened ProtocolRuns
  import opened ProtocolTheorems
  import opened ProtocolOutcomes
  import opened Derivation

  datatype Creation = Creation(store: Store, process: Process, artifacts: set<string>, result: Result<Decided, Error>)

  /** The two digests a caller reviewed, if it passes any. */
  datatype Reviewed = Reviewed(state: Option<StateDigest>, action: Option<ActionDigest>)

  predicate Accepts(reviewed: Reviewed, d: Derived) {
    && (reviewed.state.None? || reviewed.state.value == d.state)
    && (reviewed.action.None? || reviewed.action.value == d.action)
  }

  /** `create_design_revision`: the inputs are validated, the commit is prepared, then approved
      against the reviewed digests, with nothing in between. */
  function CreateRevision(pk: Packages, store: Store, artifacts: set<string>, process: Process, subject: string, inputs: Inputs,
                          reviewed: Reviewed, actor: string, evicted: set<RequestId>): Creation {
    var accepted := AcceptInputs(pk, subject, inputs);
    if accepted.Err? then Creation(store, process, artifacts, Err(accepted.error))
    else CreateAccepted(pk, store, artifacts, process, accepted.value.0, accepted.value.1, reviewed, actor, evicted)
  }

  function CreateAccepted(pk: Packages, store: Store, artifacts: set<string>, process: Process, subject: string, inputs: Inputs,
                          reviewed: Reviewed, actor: string, evicted: set<RequestId>): Creation {
    var p := PublishCommit(pk, store.revisions, artifacts, process.budget, subject, inputs);
    var spent := process.(budget := p.budget);
    if p.result.Err? then Creation(store, spent, p.artifacts, Err(p.result.error))
    else
      var prepared := PrepareUnit(store, spent, p.result.value, evicted);
      var waiting := spent.(policy := prepared.policy);
      if prepared.result.Err? then Creation(prepared.store, waiting, p.artifacts, Err(prepared.result.error))
      else
        var named := RequireIdentifier(actor, MAX_IDENTIFIER_LENGTH);
        var begun := BeginDecision(pk, prepared.store, p.artifacts, prepared.policy, prepared.result.value, reviewed.state, reviewed.action);
        if named.None? then Creation(prepared.store, waiting, p.artifacts, Err(InvalidIdentifier))
        else if begun.Err? then Creation(prepared.store, waiting, p.artifacts, Err(begun.error))
        else
          var decided := DecideUnit(prepared.store, waiting, begun.value, Approve, named.value, evicted);
          Creation(decided.store, waiting.(policy := decided.policy), p.artifacts, decided.result)
  }

  /** What a caller can check before creating a revision on the present head. */
  predicate CanCreate(pk: Packages, store: Store, process: Process, subject: string, inputs: Inputs, reviewed: Reviewed, actor: string) {
    var accepted := AcceptInputs(pk, subject, inputs);
    accepted.Ok? && CanCreateAccepted(pk, store, process, accepted.value.0, accepted.value.1, reviewed, actor)
  }

  predicate CanCreateAccepted(pk: Packages, store: Store, process: Process, subject: string, inputs: Inputs, reviewed: Reviewed, actor: string) {
    var derived := Derive(pk, store.revisions, subject, inputs);
    && derived.Ok?
    && RequireIdentifier(actor, MAX_IDENTIFIER_LENGTH).Some?
    && Consume(process.budget, ArtifactCharge(derived.value.artifact.content)).1.Ok?
    && !(derived.value.requestId in store.approvals && store.approvals[derived.value.requestId].status == Rejected)
    && |subject| <= 23
    && ReferencesReadable(derived.value)
    && Accepts(reviewed, derived.value)
    && PRE_COMMIT_CAPABILITIES <= process.policy.granted
  }

  /** The revision the accepted inputs derive from the head. */
  function DerivedRevision(pk: Packages, store: Store, subject: string, inputs: Inputs): Revision
    requires AcceptInputs(pk, subject, inputs).Ok?
    requires Derive(pk, store.revisions, AcceptInputs(pk, subject, inputs).value.0, AcceptInputs(pk, subject, inputs).value.1).Ok?
  {
    Derive(pk, store.revisions, AcceptInputs(pk, subject, inputs).value.0, AcceptInputs(pk, subject, inputs).value.1).value.ToRevision()
  }

  /** A unit that prepares an undecided commit leaves it undecided and its preparation found. */
  lemma PreparedCommitIsFound(store: Store, process: Process, d: Derived, evicted: set<RequestId>)
    requires StoreInvariant(store) && NeverAhead(process.policy, store.approvals) && Coherent(d)
    requires Undecided(store, process.policy, d.requestId)
    ensures var u := PrepareUnit(store, process, d, evicted);
            && u.result == Ok(d.requestId) && u.store.revisions == store.revisions
            && Undecided(u.store, u.policy, d.requestId)
            && PreparedCommit(u.store.journal, d.requestId) == Some(PreparedPayload(d))
  {
    hide DecisionsRecorded, OutcomesRecorded, CreationsRecorded, ConflictsAreReal, Chained;
    var u := PrepareUnit(store, process, d, evicted);
    PreparedIsDigested(u.store.journal, d.requestId);
    assert u.store.journal[|store.journal|] == PreparedEvent(d.requestId, PreparedPayload(d));
    assert PreparedPayload(d) == PayloadOf(d.requestId);
  }

  /** The first half of the decision, right after the preparation, on an unmoved head. */
  lemma FreshPreparationBegins(pk: Packages, store: Store, artifacts: set<string>, process: Process, subject: string, inputs: Inputs,
                               reviewed: Reviewed, evicted: set<RequestId>)
    requires Sound(pk) && StoreInvariant(store) && NeverAhead(process.policy, store.approvals)
    requires IsIdentifier(subject, MAX_DESIGN_ID_LENGTH) && IsIdentifier(inputs.domain, MAX_IDENTIFIER_LENGTH) && inputs.domain in pk.domains
    requires Derive(pk, store.revisions, subject, inputs).Ok?
    requires Undecided(store, process.policy, Derive(pk, store.revisions, subject, inputs).value.requestId)
    requires Derive(pk, store.revisions, subject, inputs).value.artifact.content in artifacts
    ensures var d := Derive(pk, store.revisions, subject, inputs).value;
            var u := PrepareUnit(store, process, d, evicted);
            BeginDecision(pk, u.store, artifacts, u.policy, d.requestId, reviewed.state, reviewed.action) ==
            if |subject| > 23 || !ReferencesReadable(d) then Err(InvalidIdentifier)
            else if !Accepts(reviewed, d) then Err(DigestMismatch) else Ok(d)
  {
    hide Rederive, Derive, ReferencesReadable, Undecided, PreparedCommit, PreparedPayload;
    hide Sound, IsIdentifier, DescribesHead, PrepareUnit, LatestForDesign;
    var d := Derive(pk, store.revisions, subject, inputs).value;
    DerivationIsCoherent(pk, store.revisions, subject, inputs);
    PreparedCommitIsFound(store, process, d, evicted);
    RederivationClosure(pk, store.revisions, store.revisions, artifacts, subject, inputs);
  }

  /** Progress, exactly. From any reachable state, preparing and then approving with nothing in
      between succeeds if and only if the caller's checks hold; it then appends exactly the
      revision derived from the head, as one atomic append would, and otherwise it leaves the
      revisions as they were. */
  lemma CreationIsAtomicAppend(c: Config, s: System, pid: nat, subject: string, inputs: Inputs, reviewed: Reviewed,
                               actor: string, evicted: set<RequestId>)
    requires Reachable(c, s) && Sound(c.packages) && pid in s.processes
    ensures var created := CreateRevision(c.packages, s.store, s.artifacts, s.processes[pid], subject, inputs, reviewed, actor, evicted);
            if CanCreate(c.packages, s.store, s.processes[pid], subject, inputs, reviewed, actor) then
              var r := DerivedRevision(c.packages, s.store, subject, inputs);
              created.result == Ok(Committed(r)) && created.store.revisions == s.store.revisions + [r]
            else created.result.Err? && created.store.revisions == s.store.revisions
  {
    hide CreateAccepted, CanCreateAccepted, Derive, RequireIdentifier;
    var accepted := AcceptInputs(c.packages, subject, inputs);
    if accepted.Ok? {
      AcceptedIsAppended(c, s, pid, accepted.value.0, accepted.value.1, reviewed, actor, evicted);
    }
  }

  lemma AcceptedIsAppended(c: Config, s: System, pid: nat, subject: string, inputs: Inputs, reviewed: Reviewed,
                           actor: string, evicted: set<RequestId>)
    requires Reachable(c, s) && Sound(c.packages) && pid in s.processes
    requires IsIdentifier(subject, MAX_DESIGN_ID_LENGTH) && IsIdentifier(inputs.domain, MAX_IDENTIFIER_LENGTH) && inputs.domain in c.packages.domains
    ensures var created := CreateAccepted(c.packages, s.store, s.artifacts, s.processes[pid], subject, inputs, reviewed, actor, evicted);
            if CanCreateAccepted(c.packages, s.store, s.processes[pid], subject, inputs, reviewed, actor) then
              var r := Derive(c.packages, s.store.revisions, subject, inputs).value.ToRevision();
              created.result == Ok(Committed(r)) && created.store.revisions == s.store.revisions + [r]
            else created.result.Err? && created.store.revisions == s.store.revisions
  {
    ReachableIsInvariant(c, s);
    hide PublishCommit, BeginDecision, Derive, PrepareUnit, StoreInvariant, ReferencesReadable, Coherent, DescribesHead;
    hide DescribesPast, Undecided, NeverAhead, Sound, IsIdentifier, SoundBudget, Consume, Reachable, Accepts, RequireIdentifier;
    var pk, store, process := c.packages, s.store, s.processes[pid];
    var p := PublishCommit(pk, store.revisions, s.artifacts, process.budget, subject, inputs);
    PublicationIsDerivation(pk, store.revisions, s.artifacts, process.budget, subject, inputs);
    PublicationSucceeds(pk, store.revisions, s.artifacts, process.budget, subject, inputs);
    if p.result.Ok? {
      var d, spent := p.result.value, process.(budget := p.budget);
      DerivationIsCoherent(pk, store.revisions, subject, inputs);
      PresentCommitIsUndecidedOrRejected(store, process.policy, d);
      UnitOfUndecided(store, spent, d, evicted);
      if Undecided(store, process.policy, d.requestId) {
        FreshPreparationBegins(pk, store, p.artifacts, spent, subject, inputs, reviewed, evicted);
        PreparedCommitIsFound(store, spent, d, evicted);
        var u := PrepareUnit(store, spent, d, evicted);
        StoredRowsAreChained(store);
        if RequireIdentifier(actor, MAX_IDENTIFIER_LENGTH).Some? {
          ApprovalOfPresentCommit(u.store, spent.(policy := u.policy), d, RequireIdentifier(actor, MAX_IDENTIFIER_LENGTH).value, evicted);
        }
      }
    }
  }

  /** What a refusal of the call names: the guard that failed. */
  predicate ExplainsCreation(pk: Packages, store: Store, process: Process, subject: string, inputs: Inputs, reviewed: Reviewed, actor: string, error: Error) {
    var derived := Derive(pk, store.revisions, subject, inputs);
    match error
    case BudgetExhausted =>
      var plain := Derive(pk, store.revisions, subject, inputs.(summary := None));
      plain.Ok? && process.budget.usage.artifactBytes + process.budget.reserved.artifactBytes + |plain.value.artifact.content| + 1
                   > process.budget.budget.maxArtifactBytes
    case NotPending => derived.Ok? && derived.value.requestId in store.approvals && store.approvals[derived.value.requestId].status == Rejected
    case DigestMismatch => derived.Ok? && !Accepts(reviewed, derived.value)
    case DecisionDenied => derived.Ok? && !(PRE_COMMIT_CAPABILITIES <= process.policy.granted)
    case InvalidIdentifier =>
      derived == Err(InvalidIdentifier) || RequireIdentifier(actor, MAX_IDENTIFIER_LENGTH).None? || |subject| > 23
      || (derived.Ok? && !ReferencesReadable(derived.value))
    case _ => derived == Err(error)
  }

  lemma RefusalIsExplained(c: Config, s: System, pid: nat, subject: string, inputs: Inputs, reviewed: Reviewed,
                           actor: string, evicted: set<RequestId>)
    requires Reachable(c, s) && Sound(c.packages) && pid in s.processes
    requires IsIdentifier(subject, MAX_DESIGN_ID_LENGTH) && IsIdentifier(inputs.domain, MAX_IDENTIFIER_LENGTH) && inputs.domain in c.packages.domains
    ensures var created := CreateAccepted(c.packages, s.store, s.artifacts, s.processes[pid], subject, inputs, reviewed, actor, evicted);
            created.result.Err? ==> ExplainsCreation(c.packages, s.store, s.processes[pid], subject, inputs, reviewed, actor, created.result.error)
  {
    ReachableIsInvariant(c, s);
    InvariantOfBudget(s, pid);
    InvariantOfProcess(s, pid);
    hide *;
    var pk, store, process := c.packages, s.store, s.processes[pid];
    var p := PublishCommit(pk, store.revisions, s.artifacts, process.budget, subject, inputs);
    if p.result.Err? {
      SoundIsSafe(process.budget);
      UnpublishedIsExplained(pk, store, s.artifacts, process, subject, inputs, reviewed, actor);
      UnpublishedIsRefused(pk, store, s.artifacts, process, subject, inputs, reviewed, actor, evicted);
    } else {
      PublicationIsDerivation(pk, store.revisions, s.artifacts, process.budget, subject, inputs);
      PublishedIsExplained(pk, store, s.artifacts, process, subject, inputs, reviewed, actor, evicted);
    }
  }

  lemma UnpublishedIsRefused(pk: Packages, store: Store, artifacts: set<string>, process: Process, subject: string, inputs: Inputs,
                             reviewed: Reviewed, actor: string, evicted: set<RequestId>)
    ensures var p := PublishCommit(pk, store.revisions, artifacts, process.budget, subject, inputs);
            p.result.Err? ==> CreateAccepted(pk, store, artifacts, process, subject, inputs, reviewed, actor, evicted).result == Err(p.result.error)
  {
    hide PublishCommit, PrepareUnit, BeginDecision, DecideUnit, RequireIdentifier;
  }

  lemma PublishedIsExplained(pk: Packages, store: Store, artifacts: set<string>, process: Process, subject: string, inputs: Inputs,
                             reviewed: Reviewed, actor: string, evicted: set<RequestId>)
    requires Sound(pk) && StoreInvariant(store) && NeverAhead(process.policy, store.approvals)
    requires IsIdentifier(subject, MAX_DESIGN_ID_LENGTH) && IsIdentifier(inputs.domain, MAX_IDENTIFIER_LENGTH) && inputs.domain in pk.domains
    requires var p := PublishCommit(pk, store.revisions, artifacts, process.budget, subject, inputs);
             p.result.Ok? && p.result == Derive(pk, store.revisions, subject, inputs) && p.result.value.artifact.content in p.artifacts
    ensures var created := CreateAccepted(pk, store, artifacts, process, subject, inputs, reviewed, actor, evicted);
            created.result.Err? ==> ExplainsCreation(pk, store, process, subject, inputs, reviewed, actor, created.result.error)
  {
    hide PublishCommit, BeginDecision, Derive, PrepareUnit, DecideUnit, StoreInvariant, ReferencesReadable, Coherent, DescribesHead;
    hide DescribesPast, Undecided, NeverAhead, Sound, IsIdentifier, Consume, Accepts, RequireIdentifier, WrittenUnit;
    var p := PublishCommit(pk, store.revisions, artifacts, process.budget, subject, inputs);
    var d, spent := p.result.value, process.(budget := p.budget);
    DerivationIsCoherent(pk, store.revisions, subject, inputs);
    PresentCommitIsUndecidedOrRejected(store, process.policy, d);
    UnitOfUndecided(store, spent, d, evicted);
    PreparationUnit(store, spent, d, evicted);
    if Undecided(store, process.policy, d.requestId) {
      FreshPreparationBegins(pk, store, p.artifacts, spent, subject, inputs, reviewed, evicted);
      PreparedCommitIsFound(store, spent, d, evicted);
      var u := PrepareUnit(store, spent, d, evicted);
      StoredRowsAreChained(store);
      if RequireIdentifier(actor, MAX_IDENTIFIER_LENGTH).Some? {
        ApprovalOfPresentCommit(u.store, spent.(policy := u.policy), d, RequireIdentifier(actor, MAX_IDENTIFIER_LENGTH).value, evicted);
      }
    }
  }

  lemma SoundIsSafe(l: Ledger)
    requires SoundBudget(l)
    ensures LedgerRuns.Safe(l)
  {
  }

  lemma UnpublishedIsExplained(pk: Packages, store: Store, artifacts: set<string>, process: Process, subject: string, inputs: Inputs,
                               reviewed: Reviewed, actor: string)
    requires LedgerRuns.Safe(process.budget)
    ensures var p := PublishCommit(pk, store.revisions, artifacts, process.budget, subject, inputs);
            p.result.Err? ==> ExplainsCreation(pk, store, process, subject, inputs, reviewed, actor, p.result.error)
  {
    hide PublishCommit, Derive, LedgerRuns.Safe, ReferencesReadable, Accepts, RequireIdentifier;
    PublicationEffects(pk, store.revisions, artifacts, process.budget, subject, inputs);
    FailsWithoutSummary(pk, store.revisions, subject, inputs);
    DerivationErrors(pk, store.revisions, subject, inputs);
  }

  /** A derivation fails only by its inputs. */
  lemma DerivationErrors(pk: Packages, rows: seq<Revision>, subject: string, inputs: Inputs)
    ensures Derive(pk, rows, subject, inputs) in {Err(InvalidIdentifier), Err(UnknownRevision), Err(ForkRefused), Err(InvalidParameters)}
            || Derive(pk, rows, subject, inputs).Ok?
    ensures Derive(pk, rows, subject, inputs.(summary := None)) in {Err(InvalidIdentifier), Err(UnknownRevision), Err(ForkRefused), Err(InvalidParameters)}
            || Derive(pk, rows, subject, inputs.(summary := None)).Ok?
  {
    hide RequireIdentifier, RequireText, LatestForDesign, GetRevision;
  }

  /** A summary can only make a derivation fail. */
  lemma FailsWithoutSummary(pk: Packages, rows: seq<Revision>, subject: string, inputs: Inputs)
    ensures Derive(pk, rows, subject, inputs.(summary := None)).Err? ==>
              Derive(pk, rows, subject, inputs) == Derive(pk, rows, subject, inputs.(summary := None))
  {
    DraftIgnoresSummary(pk, rows, subject, inputs);
    hide DraftCommit, RequireText;
  }

  lemma StoredRowsAreChained(store: Store)
    requires StoreInvariant(store)
    ensures Chained(store.revisions)
  {
  }

  lemma UnitOfUndecided(store: Store, process: Process, d: Derived, evicted: set<RequestId>)
    ensures PrepareUnit(store, process, d, evicted).result.Ok? <==> Undecided(store, process.policy, d.requestId)
    ensures PrepareUnit(store, process, d, evicted).store.revisions == store.revisions
    ensures PrepareUnit(store, process, d, evicted).policy.granted == process.policy.granted
  {
  }

  /** Approving a commit derived from the present head appends exactly its revision, unless the
      capabilities were revoked. */
  lemma ApprovalOfPresentCommit(store: Store, process: Process, d: Derived, actor: string, evicted: set<RequestId>)
    requires Chained(store.revisions) && Coherent(d) && DescribesHead(d, store.revisions)
    requires Undecided(store, process.policy, d.requestId)
    ensures var u := DecideUnit(store, process, d, Approve, actor, evicted);
            if PRE_COMMIT_CAPABILITIES <= process.policy.granted then
              u.result == Ok(Committed(d.ToRevision())) && u.store.revisions == store.revisions + [d.ToRevision()]
            else u.result == Err(DecisionDenied) && u.store.revisions == store.revisions
  {
    hide Chained, CompareAndSwap, Coherent, DescribesHead;
    PresentIsPast(d, store.revisions);
    SwapAcceptsPresentHead(d, store.revisions);
  }

  lemma PublicationSucceeds(pk: Packages, rows: seq<Revision>, artifacts: set<string>, budget: Ledger, subject: string, inputs: Inputs)
    ensures PublishCommit(pk, rows, artifacts, budget, subject, inputs).result.Ok? <==>
            Derive(pk, rows, subject, inputs).Ok?
            && Consume(budget, ArtifactCharge(Derive(pk, rows, subject, inputs).value.artifact.content)).1.Ok?
  {
    hide RequireIdentifier, LatestForDesign, GetRevision, Consume;
  }

  // ----- The two phases with other steps in between -----

  /** The preparation of these inputs started in the first state, its unit committed in the second,
      and the third is any later one. */
  ghost predicate PreparedDuring(c: Config, s0: System, s1: System, s: System, flight: nat, pid: nat, subject: string, inputs: Inputs,
                                 evicted: set<RequestId>) {
    var started := Next(c, s0, StartPrepare(flight, pid, subject, inputs));
    && Reachable(c, s0) && pid in s0.processes && flight !in s0.flights && flight in started.flights
    && Later(c, started, s1) && UnitCommits(s1, flight, evicted) && s1.flights[flight].Preparing?
    && s1.flights[flight].derived == started.flights[flight].derived
    && Later(c, Next(c, s1, FinishPrepare(flight, evicted)), s)
  }

  /** What a preparation published and journalled is there in every later state, so its commit can
      be found however much later it is decided. */
  lemma PreparationLasts(c: Config, s0: System, s1: System, s: System, flight: nat, pid: nat, subject: string, inputs: Inputs, evicted: set<RequestId>)
    requires PreparedDuring(c, s0, s1, s, flight, pid, subject, inputs, evicted)
    ensures var d := s1.flights[flight].derived;
            && AcceptInputs(c.packages, subject, inputs).Ok?
            && var accepted := AcceptInputs(c.packages, subject, inputs).value;
            && Derive(c.packages, s0.store.revisions, accepted.0, accepted.1) == Ok(d)
            && d.artifact.content in s.artifacts && PreparedCommit(s.store.journal, d.requestId) == Some(PreparedPayload(d))
            && Later(c, s0, s)
  {
    hide Next, Later, Reachable, Invariant, AcceptInputs, Derive, PreparedCommit, PreparedPayload, PrepareUnit, DecideUnit, Coherent, Evolves;
    var started, done := Next(c, s0, StartPrepare(flight, pid, subject, inputs)), Next(c, s1, FinishPrepare(flight, evicted));
    var d := s1.flights[flight].derived;
    ReachableIsInvariant(c, s0);
    InvariantOfBudget(s0, pid);
    StepIsLater(c, s0, StartPrepare(flight, pid, subject, inputs));
    PublishedOnStart(c, s0, flight, pid, subject, inputs);
    LaterEvolves(c, started, s1);
    FlightIsCoherent(s1, flight);
    JournalledOnFinish(c, s1, flight, evicted);
    StepIsLater(c, s1, FinishPrepare(flight, evicted));
    LaterEvolves(c, done, s);
    JournalGrows(done.store, s.store);
    PreparationsAreKept(done.store.journal, s.store.journal, d.requestId);
    LaterIsTransitive(c, s0, started, s1);
    LaterIsTransitive(c, s0, s1, done);
    LaterIsTransitive(c, s0, done, s);
  }

  lemma JournalGrows(before: Store, after: Store)
    requires Evolves(before, after)
    ensures before.journal <= after.journal
  {
  }

  lemma AcceptedAreIdentifiers(pk: Packages, subject: string, inputs: Inputs)
    ensures var accepted := AcceptInputs(pk, subject, inputs);
            accepted.Ok? ==>
              && IsIdentifier(accepted.value.0, MAX_DESIGN_ID_LENGTH) && IsIdentifier(accepted.value.1.domain, MAX_IDENTIFIER_LENGTH)
              && accepted.value.1.domain in pk.domains
  {
    hide Strip, MatchesPattern, IsReserved;
  }

  lemma InvariantOfBudget(s: System, pid: nat)
    requires Invariant(s) && pid in s.processes
    ensures SoundBudget(s.processes[pid].budget)
  {
  }

  lemma PublishedOnStart(c: Config, s: System, flight: nat, pid: nat, subject: string, inputs: Inputs)
    requires pid in s.processes && SoundBudget(s.processes[pid].budget) && flight !in s.flights
    ensures var accepted, after := AcceptInputs(c.packages, subject, inputs), Next(c, s, StartPrepare(flight, pid, subject, inputs));
            flight in after.flights ==>
            && accepted.Ok?
            && Derive(c.packages, s.store.revisions, accepted.value.0, accepted.value.1) == Ok(after.flights[flight].derived)
            && after.flights[flight].derived.artifact.content in after.artifacts
  {
    hide PublishCommit, AcceptInputs, Derive, SoundBudget;
    var accepted := AcceptInputs(c.packages, subject, inputs);
    if accepted.Ok? {
      PublicationIsDerivation(c.packages, s.store.revisions, s.artifacts, s.processes[pid].budget, accepted.value.0, accepted.value.1);
    }
  }

  lemma FlightIsCoherent(s: System, flight: nat)
    requires Invariant(s) && flight in s.flights
    ensures Coherent(s.flights[flight].derived)
  {
    hide StoreInvariant, SoundBudget, NeverAhead, Coherent, NotesBehind;
  }

  lemma JournalledOnFinish(c: Config, s: System, flight: nat, evicted: set<RequestId>)
    requires Invariant(s) && UnitCommits(s, flight, evicted) && s.flights[flight].Preparing?
    ensures var d, after := s.flights[flight].derived, Next(c, s, FinishPrepare(flight, evicted));
            PreparedCommit(after.store.journal, d.requestId) == Some(PreparedPayload(d)) && after.artifacts == s.artifacts
  {
    hide PrepareUnit, DecideUnit, Invariant, StoreInvariant, NeverAhead, Coherent, Undecided, PreparedCommit, PreparedPayload;
    var f := s.flights[flight];
    InvariantOfProcess(s, f.pid);
    FlightIsCoherent(s, flight);
    UnitOfUndecided(s.store, s.processes[f.pid], f.derived, evicted);
    PreparedCommitIsFound(s.store, s.processes[f.pid], f.derived, evicted);
  }

  /** The second phase begins exactly if nothing was stored for the design since the commit was
      derived and the actor is a valid identifier; otherwise nothing changes. */
  lemma DecisionBeginsIffHeadUnmoved(c: Config, before: System, s: System, flight: nat, pid: nat, subject: string, inputs: Inputs,
                                     verdict: Verdict, actor: string)
    requires Later(c, before, s) && Sound(c.packages) && pid in s.processes && flight !in s.flights
    requires IsIdentifier(subject, 23) && IsIdentifier(inputs.domain, MAX_IDENTIFIER_LENGTH) && inputs.domain in c.packages.domains
    requires PreparedFrom(c.packages, before, s, subject, inputs)
    requires Undecided(s.store, s.processes[pid].policy, Derive(c.packages, before.store.revisions, subject, inputs).value.requestId)
    ensures var d := Derive(c.packages, before.store.revisions, subject, inputs).value;
            var named := RequireIdentifier(actor, MAX_IDENTIFIER_LENGTH);
            Next(c, s, StartDecision(flight, pid, d.requestId, verdict, actor, Some(d.state), Some(d.action))) ==
            if named.Some? && History(s.store.revisions, subject) == History(before.store.revisions, subject)
            then s.(flights := s.flights[flight := Deciding(pid, d, verdict, named.value, None)]) else s
  {
    ApprovalIsHonouredIffHeadUnmoved(c, before, s, pid, subject, inputs);
    hide Derive, Later, PreparedFrom, Next, Sound, BeginDecision, Undecided, IsIdentifier, History, RequireIdentifier;
    var d := Derive(c.packages, before.store.revisions, subject, inputs).value;
    StartingIsTheCheck(c, s, flight, pid, d.requestId, verdict, actor, Some(d.state), Some(d.action));
  }

  lemma StartingIsTheCheck(c: Config, s: System, flight: nat, pid: nat, request: RequestId, verdict: Verdict, actor: string,
                           expectedState: Option<StateDigest>, expectedAction: Option<ActionDigest>)
    requires pid in s.processes && flight !in s.flights
    ensures var begun := BeginDecision(c.packages, s.store, s.artifacts, s.processes[pid].policy, request, expectedState, expectedAction);
            var named := RequireIdentifier(actor, MAX_IDENTIFIER_LENGTH);
            Next(c, s, StartDecision(flight, pid, request, verdict, actor, expectedState, expectedAction)) ==
            if named.Some? && begun.Ok? then s.(flights := s.flights[flight := Deciding(pid, begun.value, verdict, named.value, None)]) else s
  {
    hide BeginDecision, RequireIdentifier;
  }

  /** The commit in flight is the one derived in the earlier state, about to be approved. */
  predicate ApprovingFrom(c: Config, before: System, s: System, flight: nat, subject: string, inputs: Inputs) {
    && Derive(c.packages, before.store.revisions, subject, inputs).Ok?
    && flight in s.flights && s.flights[flight].Deciding? && s.flights[flight].pid in s.processes
    && s.flights[flight].derived == Derive(c.packages, before.store.revisions, subject, inputs).value
    && s.flights[flight].verdict == Approve
  }

  /** The system after the unit of a flight that commits: its store, and its process with the policy
      it recorded. */
  function Concluded(s: System, flight: nat, store: Store): System
    requires flight in s.flights && s.flights[flight].pid in s.processes && store.savedPolicy.Some?
  {
    var pid := s.flights[flight].pid;
    System(store, s.artifacts, s.processes[pid := Process(store.savedPolicy.value, s.processes[pid].budget)], s.flights - {flight})
  }

  /** The request is open for the process of the flight. */
  predicate Open(s: System, flight: nat)
    requires flight in s.flights && s.flights[flight].pid in s.processes
  {
    Undecided(s.store, s.processes[s.flights[flight].pid].policy, s.flights[flight].derived.requestId)
  }

  /** The request is open and the capabilities of a decision are granted. */
  predicate Decides(s: System, flight: nat)
    requires flight in s.flights && s.flights[flight].pid in s.processes
  {
    Open(s, flight) && PRE_COMMIT_CAPABILITIES <= s.processes[s.flights[flight].pid].policy.granted
  }

  function WrittenBy(s: System, flight: nat, approval: Approval, rows: seq<Revision>, events: seq<Event>, evicted: set<RequestId>): Store
    requires flight in s.flights && s.flights[flight].pid in s.processes
  {
    Written(s.store, s.processes[s.flights[flight].pid], s.flights[flight].derived.requestId, approval, rows, events, evicted)
  }

  /** The end of every preparation: its request is open, or there is no trace of it. */
  lemma PreparationOpens(c: Config, s: System, flight: nat, evicted: set<RequestId>)
    requires flight in s.flights && s.flights[flight].Preparing? && s.flights[flight].pid in s.processes
    ensures var d := s.flights[flight].derived;
            Next(c, s, FinishPrepare(flight, evicted)) ==
            if !Open(s, flight) then PutBack(s, flight)
            else Concluded(s, flight, WrittenBy(s, flight, Approval(Pending, None), s.store.revisions, [PreparedEvent(d.requestId, PreparedPayload(d))], evicted))
  {
    hide PrepareUnit, Undecided;
    PreparationUnit(s.store, s.processes[s.flights[flight].pid], s.flights[flight].derived, evicted);
  }

  /** The end of every rejection: it is recorded and journalled as one and writes no revision; a
      request that is not open, or a missing capability, leaves no trace of it. */
  lemma RejectionWritesNoRevision(c: Config, s: System, flight: nat, evicted: set<RequestId>)
    requires flight in s.flights && s.flights[flight].Deciding? && s.flights[flight].pid in s.processes && s.flights[flight].verdict == Reject
    ensures var request, actor := s.flights[flight].derived.requestId, s.flights[flight].actor;
            Next(c, s, FinishDecision(flight, evicted)) ==
            if !Decides(s, flight) then PutBack(s, flight)
            else Concluded(s, flight, WrittenBy(s, flight, Approval(Rejected, Some(actor)), s.store.revisions,
                                                [DecidedEvent(request, Rejected, actor)] + [RejectedEvent(request, actor)], evicted))
  {
    hide DecideUnit, Undecided;
    RejectionUnit(s.store, s.processes[s.flights[flight].pid], s.flights[flight].derived, s.flights[flight].actor, evicted);
  }

  /** The rows and the last event of an approval, by whether anything was stored since the commit
      was derived. */
  function ApprovedRows(rows: seq<Revision>, d: Derived, unmoved: bool): seq<Revision> {
    if unmoved then rows + [d.ToRevision()] else rows
  }

  function ApprovedEvent(rows: seq<Revision>, d: Derived, actor: string, unmoved: bool): Event {
    if unmoved then CreatedEvent(d.requestId, actor, d.revisionId, d.ToProvenance())
    else ConflictedEvent(d.requestId, actor, d.expectedHead, LastId(History(rows, d.designId)))
  }

  /** Progress over whole runs. Whatever happened since the commit was derived, in any process, its
      approval appends exactly its revision if nothing was stored for the design since, and is
      recorded as a race lost to the present head if anything was. A request that is not open, or
      a missing capability, leaves no trace of it. */
  lemma ApprovalAppendsIffHeadUnmoved(c: Config, before: System, s: System, flight: nat, subject: string, inputs: Inputs, evicted: set<RequestId>)
    requires Later(c, before, s) && ApprovingFrom(c, before, s, flight, subject, inputs)
    ensures var d, actor, rows := s.flights[flight].derived, s.flights[flight].actor, s.store.revisions;
            var unmoved := History(rows, subject) == History(before.store.revisions, subject);
            Next(c, s, FinishDecision(flight, evicted)) ==
            if !Decides(s, flight) then PutBack(s, flight)
            else Concluded(s, flight, WrittenBy(s, flight, Approval(Approved, Some(actor)), ApprovedRows(rows, d, unmoved),
                                                [DecidedEvent(d.requestId, Approved, actor)] + [ApprovedEvent(rows, d, actor, unmoved)], evicted))
  {
    hide Chained, Coherent, DescribesHead, DescribesPast, Derive, CompareAndSwap, Undecided, LatestForDesign, History;
    hide Next, Later, Invariant, Written;
    LaterEvolves(c, before, s);
    InvariantHasChains(before);
    InvariantHasChains(s);
    DerivationIsCoherent(c.packages, before.store.revisions, subject, inputs);
    var f := s.flights[flight];
    PresentIsPast(f.derived, before.store.revisions);
    PastStaysPast(f.derived, before.store.revisions, s.store.revisions);
    SwapAcceptsPresentHead(f.derived, s.store.revisions);
    DescribedAgainIffNothingStored(f.derived, before.store.revisions, s.store.revisions);
    HeadIsLast(s.store.revisions, subject);
    ApprovalConcludes(c, s, flight, evicted, DescribesHead(f.derived, s.store.revisions));
  }

  lemma InvariantHasChains(s: System)
    requires Invariant(s)
    ensures Chained(s.store.revisions)
  {
  }

  lemma ApprovalConcludes(c: Config, s: System, flight: nat, evicted: set<RequestId>, unmoved: bool)
    requires flight in s.flights && s.flights[flight].Deciding? && s.flights[flight].pid in s.processes && s.flights[flight].verdict == Approve
    requires var d := s.flights[flight].derived;
             && CompareAndSwap(s.store.revisions, d.ToRevision(), d.expectedHead) == (if unmoved then Inserted(s.store.revisions + [d.ToRevision()]) else LostRace)
             && IdOf(LatestForDesign(s.store.revisions, d.designId)) == LastId(History(s.store.revisions, d.designId))
    ensures var d, actor, rows := s.flights[flight].derived, s.flights[flight].actor, s.store.revisions;
            Next(c, s, FinishDecision(flight, evicted)) ==
            if !Decides(s, flight) then PutBack(s, flight)
            else Concluded(s, flight, WrittenBy(s, flight, Approval(Approved, Some(actor)), ApprovedRows(rows, d, unmoved),
                                                [DecidedEvent(d.requestId, Approved, actor)] + [ApprovedEvent(rows, d, actor, unmoved)], evicted))
  {
    hide DecideUnit, Undecided, CompareAndSwap, LatestForDesign, History;
    ApprovalUnit(s.store, s.processes[s.flights[flight].pid], s.flights[flight].derived, s.flights[flight].actor, evicted);
  }

  /** The decision of this commit started in one state and waits in the other, where it can be
      taken. */
  ghost predicate DecidingDuring(c: Config, s2: System, s3: System, flight: nat, pid: nat, d: Derived, actor: string) {
    var named := RequireIdentifier(actor, MAX_IDENTIFIER_LENGTH);
    && named.Some? && pid in s2.processes && flight !in s2.flights && Undecided(s2.store, s2.processes[pid].policy, d.requestId)
    && Later(c, Next(c, s2, StartDecision(flight, pid, d.requestId, Approve, actor, Some(d.state), Some(d.action))), s3)
    && pid in s3.processes && flight in s3.flights && s3.flights[flight].(note := None) == Deciding(pid, d, Approve, named.value, None)
    && Undecided(s3.store, s3.processes[pid].policy, d.requestId) && PRE_COMMIT_CAPABILITIES <= s3.processes[pid].policy.granted
  }

  /** Prepare, then approve, in any two processes and with any steps of any process in between: if
      nothing was stored for the design since the preparation started, the decision begins and
      its unit appends exactly the prepared revision. */
  lemma PrepareThenApproveAppends(c: Config, s0: System, s1: System, s2: System, s3: System, preparing: nat, preparer: nat,
                                  deciding: nat, decider: nat, subject: string, inputs: Inputs, actor: string,
                                  evicted: set<RequestId>, evicted': set<RequestId>)
    requires Sound(c.packages) && PreparedDuring(c, s0, s1, s2, preparing, preparer, subject, inputs, evicted)
    requires var d := s1.flights[preparing].derived;
             && |d.designId| <= 23 && ReferencesReadable(d) && DecidingDuring(c, s2, s3, deciding, decider, d, actor)
             && History(s3.store.revisions, d.designId) == History(s0.store.revisions, d.designId)
    ensures var d := s1.flights[preparing].derived;
            && deciding in Next(c, s2, StartDecision(deciding, decider, d.requestId, Approve, actor, Some(d.state), Some(d.action))).flights
            && Next(c, s3, FinishDecision(deciding, evicted')).store.revisions == s3.store.revisions + [d.ToRevision()]
  {
    hide Next, Later, Reachable, Invariant, Derive, PreparedCommit, PreparedPayload, PrepareUnit, DecideUnit, Evolves;
    hide Sound, IsIdentifier, History, Undecided, ReferencesReadable, RequireIdentifier, Chained;
    PreparationLasts(c, s0, s1, s2, preparing, preparer, subject, inputs, evicted);
    AcceptedAreIdentifiers(c.packages, subject, inputs);
    hide AcceptInputs;
    var d, accepted := s1.flights[preparing].derived, AcceptInputs(c.packages, subject, inputs).value;
    DerivedDesign(c.packages, s0.store.revisions, accepted.0, accepted.1);
    var start := StartDecision(deciding, decider, d.requestId, Approve, actor, Some(d.state), Some(d.action));
    LaterEvolves(c, s0, s2);
    StepIsLater(c, s2, start);
    LaterIsTransitive(c, s2, Next(c, s2, start), s3);
    LaterIsTransitive(c, s0, s2, s3);
    HistoryBetween(c, s0, s2, s3, d.designId);
    DecisionBeginsIffHeadUnmoved(c, s0, s2, deciding, decider, accepted.0, accepted.1, Approve, actor);
    ApprovalAppendsIffHeadUnmoved(c, s0, s3, deciding, accepted.0, accepted.1, evicted');
  }

  lemma DerivedDesign(pk: Packages, rows: seq<Revision>, subject: string, inputs: Inputs)
    requires Derive(pk, rows, subject, inputs).Ok?
    requires IsIdentifier(subject, MAX_DESIGN_ID_LENGTH)
    ensures Derive(pk, rows, subject, inputs).value.designId == subject
    ensures |subject| <= 23 ==> IsIdentifier(subject, 23)
  {
    DerivationIsCoherent(pk, rows, subject, inputs);
    hide Derive;
  }

  /** What is the same at both ends of a stretch of a run is the same in between. */
  lemma HistoryBetween(c: Config, s0: System, s2: System, s3: System, design: string)
    requires Later(c, s0, s2) && Later(c, s2, s3)
    requires History(s3.store.revisions, design) == History(s0.store.revisions, design)
    ensures History(s2.store.revisions, design) == History(s0.store.revisions, design)
  {
    hide Next, Later, Invariant, Chained, History;
    LaterEvolves(c, s0, s2);
    LaterEvolves(c, s2, s3);
    InvariantHasChains(s0);
    InvariantHasChains(s2);
    InvariantHasChains(s3);
    HeadUnchangedIffNothingStored(s0.store.revisions, s2.store.revisions, design);
    HeadUnchangedIffNothingStored(s2.store.revisions, s3.store.revisions, design);
  }

  /** A commit that described the head once describes a later one exactly if nothing was stored. */
  lemma DescribedAgainIffNothingStored(d: Derived, rows: seq<Revision>, rows': seq<Revision>)
    requires Chained(rows) && Chained(rows') && rows <= rows' && DescribesHead(d, rows)
    ensures DescribesHead(d, rows') <==> History(rows', d.designId) == History(rows, d.designId)
  {
    HeadUnchangedIffNothingStored(rows, rows', d.designId);
    hide Chained, History, LatestForDesign;
  }

  // ----- One call is a run of four steps -----

  /** The four halves of prepare and approve, for the request that the preparation opened. */
  function CreationActions(pid: nat, flight: nat, subject: string, inputs: Inputs, request: RequestId, reviewed: Reviewed,
                           actor: string, evicted: set<RequestId>): seq<Action> {
    [StartPrepare(flight, pid, subject, inputs), FinishPrepare(flight, evicted),
     StartDecision(flight, pid, request, Approve, actor, reviewed.state, reviewed.action), FinishDecision(flight, evicted)]
  }

  /** The call is these four actions of the system, one after another and with nothing in between;
      or only the first, if no commit can be derived or its report cannot be afforded. */
  lemma CreationIsFourActions(c: Config, s: System, pid: nat, flight: nat, subject: string, inputs: Inputs, reviewed: Reviewed,
                              actor: string, evicted: set<RequestId>)
    requires pid in s.processes && flight !in s.flights
    ensures var created := CreateRevision(c.packages, s.store, s.artifacts, s.processes[pid], subject, inputs, reviewed, actor, evicted);
            var started := Next(c, s, StartPrepare(flight, pid, subject, inputs));
            Installed(s, pid, created) ==
            if flight !in started.flights then started
            else Steps(c, s, CreationActions(pid, flight, subject, inputs, started.flights[flight].derived.requestId, reviewed, actor, evicted))
  {
    hide PublishCommit, PrepareUnit, BeginDecision, DecideUnit, AcceptInputs, Derive, Steps, RequireIdentifier;
    var created := CreateRevision(c.packages, s.store, s.artifacts, s.processes[pid], subject, inputs, reviewed, actor, evicted);
    var s1 := Next(c, s, StartPrepare(flight, pid, subject, inputs));
    var accepted := AcceptInputs(c.packages, subject, inputs);
    if accepted.Ok? && flight in s1.flights {
      var d := s1.flights[flight].derived;
      var s2 := Next(c, s1, FinishPrepare(flight, evicted));
      assert s2.flights == s.flights;
      var prepared := PrepareUnit(s.store, s1.processes[pid], d, evicted);
      PreparedRequest(c.packages, s.store, s1.artifacts, s1.processes[pid], d, reviewed, evicted);
      FourSteps(c, s, pid, flight, subject, inputs, d.requestId, reviewed, actor, evicted);
      DecidingSteps(c, s2, pid, flight, d.requestId, reviewed, actor, evicted);
      assert Installed(s, pid, created) == AfterDeciding(c, s2, pid, d.requestId, reviewed, actor, evicted);
    }
  }

  /** The system after a call that process `pid` made. */
  function Installed(s: System, pid: nat, created: Creation): System {
    s.(store := created.store, artifacts := created.artifacts, processes := s.processes[pid := created.process])
  }

  /** The second phase without anything in between. */
  function AfterDeciding(c: Config, s: System, pid: nat, request: RequestId, reviewed: Reviewed, actor: string, evicted: set<RequestId>): System
    requires pid in s.processes
  {
    var named := RequireIdentifier(actor, MAX_IDENTIFIER_LENGTH);
    var begun := BeginDecision(c.packages, s.store, s.artifacts, s.processes[pid].policy, request, reviewed.state, reviewed.action);
    if named.None? || begun.Err? then s
    else
      var u := DecideUnit(s.store, s.processes[pid], begun.value, Approve, named.value, evicted);
      SetPolicy(s.(store := u.store), pid, u.policy)
  }

  lemma FourSteps(c: Config, s: System, pid: nat, flight: nat, subject: string, inputs: Inputs, request: RequestId, reviewed: Reviewed,
                  actor: string, evicted: set<RequestId>)
    ensures var a := CreationActions(pid, flight, subject, inputs, request, reviewed, actor, evicted);
            Steps(c, s, a) == Next(c, Next(c, Next(c, Next(c, s, a[0]), a[1]), a[2]), a[3])
  {
    hide Next, Steps;
    var a := CreationActions(pid, flight, subject, inputs, request, reviewed, actor, evicted);
    assert a == [a[0]] + [a[1]] + [a[2]] + [a[3]];
    StepsOneMore(c, s, [a[0]] + [a[1]] + [a[2]], a[3]);
    StepsOneMore(c, s, [a[0]] + [a[1]], a[2]);
    StepsOneMore(c, s, [a[0]], a[1]);
    StepsOneMore(c, s, [], a[0]);
  }

  /** A preparation is accepted under its own request, and one that is refused is decided, so that
      a decision on it cannot begin either. */
  lemma PreparedRequest(pk: Packages, store: Store, artifacts: set<string>, process: Process, d: Derived, reviewed: Reviewed, evicted: set<RequestId>)
    ensures var u := PrepareUnit(store, process, d, evicted);
            && (u.result.Ok? ==> u.result.value == d.requestId)
            && (u.result.Err? ==>
                  u.store == store && u.policy == process.policy
                  && BeginDecision(pk, store, artifacts, process.policy, d.requestId, reviewed.state, reviewed.action).Err?)
  {
    hide Rederive;
  }

  lemma DecidingSteps(c: Config, s: System, pid: nat, flight: nat, request: RequestId, reviewed: Reviewed,
                      actor: string, evicted: set<RequestId>)
    requires pid in s.processes && flight !in s.flights
    ensures var third := StartDecision(flight, pid, request, Approve, actor, reviewed.state, reviewed.action);
            Next(c, Next(c, s, third), FinishDecision(flight, evicted)) == AfterDeciding(c, s, pid, request, reviewed, actor, evicted)
  {
    hide BeginDecision, DecideUnit, RequireIdentifier;
    var s3 := Next(c, s, StartDecision(flight, pid, request, Approve, actor, reviewed.state, reviewed.action));
    assert flight in s3.flights ==> s3.flights - {flight} == s.flights;
  }
}
