/** The two-phase revision commit (`application.py`): what each half of prepare and decide
    does to the shared store and to the process that runs it.

    A unit of work is one database transaction, so its effect is one step: everything it
    writes, or nothing. `Application` proves the statement-by-statement form against these. */
module Protocol {
  import opened Wrappers
  import opened Identifiers
  import opened Usage
  import opened Ledgers
  import opened Revisions

  const PRE_COMMIT_CAPABILITIES: set<string> := {"artifact.write", "design.write"}

  datatype Status = Pending | Approved | Rejected

  datatype Verdict = Approve | Reject

  datatype Approval = Approval(status: Status, actor: Option<string>)

  /** The policy engine of one process: its capability grants, and the approval it tracks
      per request. */
  datatype Policy = Policy(granted: set<string>, status: map<RequestId, Status>)

  datatype Event =
    | PreparedEvent(request: RequestId, payload: Preparation)
    | DecidedEvent(request: RequestId, status: Status, actor: string)
    | RejectedEvent(request: RequestId, actor: string)
    | ConflictedEvent(request: RequestId, actor: string, expectedHead: Option<string>, actualHead: Option<string>)
    | CreatedEvent(request: RequestId, actor: string, revisionId: string, provenance: Provenance)
    | OtherEvent

  /** The database: revision rows, approval rows, the journal, and the latest kernel records. */
  datatype Store = Store(
    revisions: seq<Revision>,
    approvals: map<RequestId, Approval>,
    journal: seq<Event>,
    savedPolicy: Option<Policy>,
    savedBudget: Option<Ledger>)

  const EMPTY_STORE := Store([], map[], [], None, None)

  datatype Process = Process(policy: Policy, budget: Ledger)

  // ----- Prepare, first half: derive and publish -----

  /** The validated subject, domain and workflow of a preparation. */
  function AcceptInputs(pk: Packages, subject: string, inputs: Inputs): Result<(string, Inputs), Error> {
    var design := RequireIdentifier(subject, MAX_DESIGN_ID_LENGTH);
    var domain := RequireIdentifier(inputs.domain, MAX_IDENTIFIER_LENGTH);
    if design.None? || domain.None? then Err(InvalidIdentifier)
    else if domain.value !in pk.domains then Err(UnknownDomain)
    else if inputs.workflowId.None? then Ok((design.value, inputs.(domain := domain.value)))
    else
      var workflow := RequireIdentifier(inputs.workflowId.value, MAX_IDENTIFIER_LENGTH);
      if workflow.None? || IsReserved(workflow.value) then Err(InvalidIdentifier)
      else Ok((design.value, inputs.(domain := domain.value, workflowId := workflow)))
  }

  predicate IsReserved(id: string) {
    id == "kernel-policy-state" || id == "kernel-budget-state" || "kernel-state:" <= id
  }

  datatype Publication = Publication(result: Result<Derived, Error>, artifacts: set<string>, budget: Ledger)

  function ArtifactCharge(report: string): BudgetUsage {
    ZERO.(artifactBytes := |report| + 1)
  }

  /** The publishing derivation: the report is stored and then charged before the summary is
      checked, so a late refusal keeps both. */
  function PublishCommit(pk: Packages, rows: seq<Revision>, artifacts: set<string>, budget: Ledger, subject: string, inputs: Inputs): Publication {
    match DraftCommit(pk, rows, subject, inputs)
    case Err(e) => Publication(Err(e), artifacts, budget)
    case Ok(draft) =>
      var stored := artifacts + {draft.report};
      var (charged, outcome) := Consume(budget, ArtifactCharge(draft.report));
      if outcome.Err? then Publication(Err(BudgetExhausted), stored, budget)
      else Publication(FinishCommit(pk, subject, inputs, draft), stored, charged)
  }

  // ----- The policy engine -----

  /** Tracks a request as pending unless it is already tracked. Tracking may evict other
      requests (the engine holds a bounded number); it never evicts the request at hand. */
  function RequestApproval(p: Policy, request: RequestId, evicted: set<RequestId>): (r: Policy)
    ensures request in r.status
  {
    var kept := p.status - (evicted - {request});
    if request in p.status then p.(status := kept) else p.(status := kept[request := Pending])
  }

  function Resolve(p: Policy, request: RequestId, status: Status): Policy {
    p.(status := p.status[request := status])
  }

  predicate Undecided(store: Store, policy: Policy, request: RequestId) {
    && (request in policy.status ==> policy.status[request] == Pending)
    && (request in store.approvals ==> store.approvals[request].status == Pending)
  }

  // ----- Units of work -----

  /** A unit ends with the store it committed and the policy it left in memory. */
  datatype Unit<T> = Unit(store: Store, policy: Policy, result: Result<T, Error>)

  function Persisted(store: Store, policy: Policy, budget: Ledger): Store {
    store.(savedPolicy := Some(policy), savedBudget := Some(budget))
  }

  /** The transactional half of `prepare_design_revision`. */
  function PrepareUnit(store: Store, process: Process, d: Derived, evicted: set<RequestId>): Unit<RequestId> {
    if !Undecided(store, process.policy, d.requestId) then Unit(store, process.policy, Err(NotPending))
    else
      var policy := RequestApproval(process.policy, d.requestId, evicted);
      var written := store.(approvals := store.approvals[d.requestId := Approval(Pending, None)],
                            journal := store.journal + [PreparedEvent(d.requestId, PreparedPayload(d))]);
      Unit(Persisted(written, policy, process.budget), policy, Ok(d.requestId))
  }

  datatype Insertion = Inserted(rows: seq<Revision>) | LostRace | KeyTaken

  /** `commit_revision`: a compare-and-swap append on the head of the design, under the
      table's primary key. */
  function CompareAndSwap(rows: seq<Revision>, r: Revision, expectedHead: Option<string>): Insertion {
    var head := LatestForDesign(rows, r.designId);
    if IdOf(head) != expectedHead then LostRace
    else if r.sequence != (if head.None? then 0 else head.value.sequence + 1) then LostRace
    else if GetRevision(rows, r.revisionId).Some? then KeyTaken
    else Inserted(rows + [r])
  }

  /** What a decision that was recorded came to. */
  datatype Decided = Committed(revision: Revision) | RejectionRecorded | RaceLost

  /** The transactional half of `decide_revision_commit`. */
  function DecideUnit(store: Store, process: Process, d: Derived, verdict: Verdict, actor: string, evicted: set<RequestId>): Unit<Decided> {
    var request := d.requestId;
    if !Undecided(store, process.policy, request) then Unit(store, process.policy, Err(NotPending))
    else if !(PRE_COMMIT_CAPABILITIES <= process.policy.granted) then Unit(store, process.policy, Err(DecisionDenied))
    else
      var status := if verdict == Approve then Approved else Rejected;
      var policy := Resolve(RequestApproval(process.policy, request, evicted), request, status);
      var decided := store.(approvals := store.approvals[request := Approval(status, Some(actor))],
                            journal := store.journal + [DecidedEvent(request, status, actor)]);
      if verdict == Reject then
        var written := decided.(journal := decided.journal + [RejectedEvent(request, actor)]);
        Unit(Persisted(written, policy, process.budget), policy, Ok(RejectionRecorded))
      else
        match CompareAndSwap(store.revisions, d.ToRevision(), d.expectedHead)
        case KeyTaken => Unit(store, process.policy, Err(StorageFailure))
        case LostRace =>
          var conflict := ConflictedEvent(request, actor, d.expectedHead, IdOf(LatestForDesign(store.revisions, d.designId)));
          var written := decided.(journal := decided.journal + [conflict]);
          Unit(Persisted(written, policy, process.budget), policy, Ok(RaceLost))
        case Inserted(rows) =>
          var created := CreatedEvent(request, actor, d.revisionId, d.ToProvenance());
          var written := decided.(revisions := rows, journal := decided.journal + [created]);
          Unit(Persisted(written, policy, process.budget), policy, Ok(Committed(d.ToRevision())))
  }

  // ----- Decide, first half -----

  /** The first preparation journalled for a request. */
  function PreparedCommit(journal: seq<Event>, request: RequestId): Option<Preparation> {
    if journal == [] then None
    else
      var earlier := PreparedCommit(journal[..|journal| - 1], request);
      var last := journal[|journal| - 1];
      if earlier.Some? then earlier
      else if last.PreparedEvent? && last.request == request then Some(last.payload)
      else None
  }

  /** A request identifier reaches the decision only within the identifier length. */
  predicate Decidable(request: RequestId) {
    RequestIdLength(request) <= MAX_IDENTIFIER_LENGTH
  }

  /** The checks and the re-derivation before the decision's unit of work. `expected` is the
      pair of digests the caller reviewed, if it passed them. */
  function BeginDecision(pk: Packages, store: Store, artifacts: set<string>, policy: Policy, request: RequestId,
                         expectedState: Option<StateDigest>, expectedAction: Option<ActionDigest>): Result<Derived, Error> {
    if !Decidable(request) then Err(InvalidIdentifier)
    else
      var prepared := PreparedCommit(store.journal, request);
      if prepared.None? then Err(UnknownPrepared)
      else if !Undecided(store, policy, request) then Err(NotPending)
      else
        var d :- Rederive(pk, store.revisions, artifacts, prepared.value);
        if expectedState.Some? && expectedState.value != d.state then Err(DigestMismatch)
        else if expectedAction.Some? && expectedAction.value != d.action then Err(DigestMismatch)
        else Ok(d)
  }

  // ----- Reading back and restarting -----

  /** The provenance `_record_for` finds: that of the first creation event of the revision. */
  function RecordedProvenance(journal: seq<Event>, revisionId: string): Option<Provenance> {
    if journal == [] then None
    else
      var earlier := RecordedProvenance(journal[..|journal| - 1], revisionId);
      var last := journal[|journal| - 1];
      if earlier.Some? then earlier
      else if last.CreatedEvent? && last.revisionId == revisionId then Some(last.provenance)
      else None
  }

  /** `_restore_kernel_state`: a missing record is acceptable only without recorded history. */
  function Restart(store: Store, defaults: Process): Result<Process, Error> {
    if store.journal != [] && (store.savedPolicy.None? || store.savedBudget.None?) then Err(CorruptKernelState)
    else
      var policy := GetOr(store.savedPolicy, defaults.policy);
      if store.savedBudget.None? then Ok(Process(policy, defaults.budget))
      else
        var (budget, outcome) := Import(defaults.budget, Export(store.savedBudget.value));
        if outcome.Err? then Err(CorruptKernelState) else Ok(Process(policy, budget))
  }
}
