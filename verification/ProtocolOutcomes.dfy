/** What each unit and each check of the commit protocol comes to, stated by what is written: the
    rows, the one approval, the events, both kernel records and the policy left in memory. */
module ProtocolOutcomes {
  import opened Wrappers
  import opened Identifiers
  import opened Usage
  import opened Ledgers
  import opened Revisions
  import opened Derivation
  import opened Protocol
  import opened ProtocolRuns
  import LedgerRuns

  // ----- What units write -----

  /** The engine, once it tracks the request under this status and has evicted others. */
  function Held(p: Policy, request: RequestId, status: Status, evicted: set<RequestId>): Policy {
    Policy(p.granted, (p.status - (evicted - {request}))[request := status])
  }

  /** The store after a unit that commits: these rows, one approval, its events, and the records of
      its process. */
  function Written(store: Store, process: Process, request: RequestId, approval: Approval, rows: seq<Revision>, events: seq<Event>,
                   evicted: set<RequestId>): Store {
    Store(rows, store.approvals[request := approval], store.journal + events,
          Some(Held(process.policy, request, approval.status, evicted)), Some(process.budget))
  }

  function WrittenUnit<T>(store: Store, process: Process, request: RequestId, approval: Approval, rows: seq<Revision>, events: seq<Event>,
                          evicted: set<RequestId>, result: T): Unit<T> {
    Unit(Written(store, process, request, approval, rows, events, evicted), Held(process.policy, request, approval.status, evicted), Ok(result))
  }

  function RefusedUnit<T>(store: Store, process: Process, error: Error): Unit<T> {
    Unit(store, process.policy, Err(error))
  }

  /** A preparation opens its request as pending and journals what was derived. */
  lemma PreparationUnit(store: Store, process: Process, d: Derived, evicted: set<RequestId>)
    ensures PrepareUnit(store, process, d, evicted) ==
            if !Undecided(store, process.policy, d.requestId) then RefusedUnit(store, process, NotPending)
            else WrittenUnit(store, process, d.requestId, Approval(Pending, None), store.revisions,
                             [PreparedEvent(d.requestId, PreparedPayload(d))], evicted, d.requestId)
  {
  }

  /** A rejection is recorded as a rejection and writes no revision. */
  lemma RejectionUnit(store: Store, process: Process, d: Derived, actor: string, evicted: set<RequestId>)
    ensures DecideUnit(store, process, d, Reject, actor, evicted) ==
            if !Undecided(store, process.policy, d.requestId) then RefusedUnit(store, process, NotPending)
            else if !(PRE_COMMIT_CAPABILITIES <= process.policy.granted) then RefusedUnit(store, process, DecisionDenied)
            else WrittenUnit(store, process, d.requestId, Approval(Rejected, Some(actor)), store.revisions,
                             [DecidedEvent(d.requestId, Rejected, actor)] + [RejectedEvent(d.requestId, actor)], evicted, RejectionRecorded)
  {
    hide CompareAndSwap, Undecided;
    TwoMore(store.journal, DecidedEvent(d.requestId, Rejected, actor), RejectedEvent(d.requestId, actor));
    ResolvedIsHeld(process.policy, d.requestId, Rejected, evicted);
  }

  lemma ResolvedIsHeld(p: Policy, request: RequestId, status: Status, evicted: set<RequestId>)
    ensures Resolve(RequestApproval(p, request, evicted), request, status) == Held(p, request, status, evicted)
  {
  }

  lemma TwoMore(journal: seq<Event>, a: Event, b: Event)
    ensures journal + [a] + [b] == journal + ([a] + [b])
  {
  }

  /** An approval appends the revision if the swap accepts it, and records the conflict if not. */
  lemma ApprovalUnit(store: Store, process: Process, d: Derived, actor: string, evicted: set<RequestId>)
    ensures var decided := DecidedEvent(d.requestId, Approved, actor);
            var created := CreatedEvent(d.requestId, actor, d.revisionId, Provenance(d.provenanceId, d.designId, d.artifact, d.packageDigest, d.parents, d.transformations));
            var conflict := ConflictedEvent(d.requestId, actor, d.expectedHead, IdOf(LatestForDesign(store.revisions, d.designId)));
            var approval, swap := Approval(Approved, Some(actor)), CompareAndSwap(store.revisions, d.ToRevision(), d.expectedHead);
            DecideUnit(store, process, d, Approve, actor, evicted) ==
            if !Undecided(store, process.policy, d.requestId) then RefusedUnit(store, process, NotPending)
            else if !(PRE_COMMIT_CAPABILITIES <= process.policy.granted) then RefusedUnit(store, process, DecisionDenied)
            else if swap.Inserted? then
              WrittenUnit(store, process, d.requestId, approval, swap.rows, [decided] + [created], evicted, Committed(d.ToRevision()))
            else if swap.LostRace? then WrittenUnit(store, process, d.requestId, approval, store.revisions, [decided] + [conflict], evicted, RaceLost)
            else RefusedUnit(store, process, StorageFailure)
  {
    hide CompareAndSwap, Undecided, LatestForDesign;
    ResolvedIsHeld(process.policy, d.requestId, Approved, evicted);
    var decided := DecidedEvent(d.requestId, Approved, actor);
    TwoMore(store.journal, decided, CreatedEvent(d.requestId, actor, d.revisionId, d.ToProvenance()));
    TwoMore(store.journal, decided, ConflictedEvent(d.requestId, actor, d.expectedHead, IdOf(LatestForDesign(store.revisions, d.designId))));
  }

  // ----- The swap -----

  function LastId(h: seq<Revision>): Option<string> {
    if h == [] then None else Some(h[|h| - 1].revisionId)
  }

  /** `commit_revision`, by the history of the design alone: the expected head is its last revision
      and the sequence is its length, and the identifier is not taken. */
  lemma SwapIsExact(rows: seq<Revision>, r: Revision, expectedHead: Option<string>)
    requires Chained(rows)
    ensures var h := History(rows, r.designId);
            CompareAndSwap(rows, r, expectedHead) ==
            if LastId(h) != expectedHead || r.sequence != |h| then LostRace
            else if exists i :: 0 <= i < |rows| && rows[i].revisionId == r.revisionId then KeyTaken
            else Inserted(rows + [r])
  {
    HeadIsLast(rows, r.designId);
    hide LatestForDesign, History, Chained;
  }

  // ----- The checks before a decision -----

  /** What refuses a decision before anything is derived again. */
  lemma DecisionIsRefusedEarly(pk: Packages, store: Store, artifacts: set<string>, policy: Policy, request: RequestId,
                               expectedState: Option<StateDigest>, expectedAction: Option<ActionDigest>)
    ensures var begun := BeginDecision(pk, store, artifacts, policy, request, expectedState, expectedAction);
            var prepared := exists i :: 0 <= i < |store.journal| && store.journal[i].PreparedEvent? && store.journal[i].request == request;
            && (|request.designId| > 23 ==> begun == Err(InvalidIdentifier))
            && (|request.designId| <= 23 && !prepared ==> begun == Err(UnknownPrepared))
            && (|request.designId| <= 23 && prepared && !Undecided(store, policy, request) ==> begun == Err(NotPending))
            && (begun.Ok? ==> expectedState in {None, Some(begun.value.state)} && expectedAction in {None, Some(begun.value.action)})
  {
    hide Rederive, Undecided;
    PreparedCommitIsSome(store.journal, request);
  }

  lemma {:induction false} PreparedCommitIsSome(journal: seq<Event>, request: RequestId)
    ensures PreparedCommit(journal, request).Some? <==>
            exists i :: 0 <= i < |journal| && journal[i].PreparedEvent? && journal[i].request == request
  {
    if journal != [] {
      PreparedCommitIsSome(journal[..|journal| - 1], request);
    }
  }

  /** A re-derivation that succeeds has checked everything the preparation recorded. */
  lemma RederivedIsChecked(pk: Packages, rows: seq<Revision>, artifacts: set<string>, prepared: Preparation)
    requires Rederive(pk, rows, artifacts, prepared).Ok?
    ensures var d := Rederive(pk, rows, artifacts, prepared).value;
            && IsIdentifier(Strip(prepared.designId), MAX_DESIGN_ID_LENGTH) && ValidName(prepared.domain) && Strip(prepared.domain) in pk.domains
            && ValidText(prepared.summary)
            && (forall i :: 0 <= i < |prepared.parents| ==> ValidName(prepared.parents[i]))
            && (forall t :: t in prepared.transformations ==> ValidName(t))
            && d.requestId == prepared.requestId && d.artifact.content in artifacts
            && d.designId == Strip(prepared.designId) && d.domain == Strip(prepared.domain)
            && d.spec.summary == Strip(prepared.summary) && d.workflowId == prepared.workflowId
  {
    hide Strip, MatchesPattern, LatestForDesign, GetRevision;
  }

  // ----- Accepting and publishing -----

  predicate ReservedName(id: string) {
    id == "kernel-policy-state" || id == "kernel-budget-state" || (|id| >= 13 && id[..13] == "kernel-state:")
  }

  /** What `prepare_design_revision` accepts: valid identifiers of a known domain, and a workflow
      that names no kernel record. It normalises these three and passes on all else as given. */
  lemma AcceptedInputsAreTheCallers(pk: Packages, subject: string, inputs: Inputs)
    ensures var workflow := if inputs.workflowId.None? then None else Some(Strip(inputs.workflowId.value));
            var accepted := AcceptInputs(pk, subject, inputs);
            && (accepted.Ok? <==>
                  && IsIdentifier(Strip(subject), MAX_DESIGN_ID_LENGTH) && ValidName(inputs.domain) && Strip(inputs.domain) in pk.domains
                  && (workflow.Some? ==> IsIdentifier(workflow.value, MAX_IDENTIFIER_LENGTH) && !ReservedName(workflow.value)))
            && (accepted.Ok? ==>
                  accepted.value == (Strip(subject), Inputs(Strip(inputs.domain), inputs.summary, inputs.parameters, inputs.parentRevisionId,
                                                            inputs.parentProvenanceIds, inputs.transformationIds, workflow)))
            && (accepted.Err? ==>
                  accepted.error == if IsIdentifier(Strip(subject), MAX_DESIGN_ID_LENGTH) && ValidName(inputs.domain) && Strip(inputs.domain) !in pk.domains
                                    then UnknownDomain else InvalidIdentifier)
  {
    hide Strip, MatchesPattern;
  }

  /** Everything the publishing derivation does. Inputs that cannot be derived, whatever their
      summary, leave no trace. Otherwise the report is stored; if it is affordable, its bytes and a
      newline are charged, and nothing else; and only then does a bad summary matter. */
  lemma PublicationEffects(pk: Packages, rows: seq<Revision>, artifacts: set<string>, budget: Ledger, subject: string, inputs: Inputs)
    requires LedgerRuns.Safe(budget)
    ensures var plain, derived := Derive(pk, rows, subject, inputs.(summary := None)), Derive(pk, rows, subject, inputs);
            var p := PublishCommit(pk, rows, artifacts, budget, subject, inputs);
            if plain.Err? then p == Publication(plain, artifacts, budget)
            else
              var report := plain.value.artifact.content;
              var bytes := budget.usage.artifactBytes + |report| + 1;
              && p.artifacts == artifacts + {report}
              && if bytes + budget.reserved.artifactBytes > budget.budget.maxArtifactBytes then p.result == Err(BudgetExhausted) && p.budget == budget
                 else p.result == derived && p.budget == budget.(usage := budget.usage.(artifactBytes := bytes))
  {
    hide DraftCommit, Consume, LatestForDesign, LedgerRuns.Safe, RequireText;
    DraftIgnoresSummary(pk, rows, subject, inputs);
    var draft := DraftCommit(pk, rows, subject, inputs);
    if draft.Ok? {
      ChargedBytes(budget, |draft.value.report| + 1);
    }
  }

  lemma DraftIgnoresSummary(pk: Packages, rows: seq<Revision>, subject: string, inputs: Inputs)
    ensures DraftCommit(pk, rows, subject, inputs.(summary := None)) == DraftCommit(pk, rows, subject, inputs)
  {
  }

  /** Charging bytes to a ledger within its limits fails only by the bytes. */
  lemma ChargedBytes(l: Ledger, n: nat)
    requires LedgerRuns.Safe(l)
    ensures var bytes := l.usage.artifactBytes + n;
            var (after, outcome) := Consume(l, ZERO.(artifactBytes := n));
            if bytes + l.reserved.artifactBytes > l.budget.maxArtifactBytes then after == l && outcome.Err?
            else after == l.(usage := l.usage.(artifactBytes := bytes)) && outcome.Ok?
  {
    LedgerRuns.AcceptanceIsExact(l, ZERO.(artifactBytes := n));
    var held := Add(l.usage, l.reserved);
    forall d: Dimension | d != ArtifactBytes
      ensures Amount(Add(held, ZERO.(artifactBytes := n)), d) == Amount(held, d)
    {
    }
    assert Amount(Add(held, ZERO.(artifactBytes := n)), ArtifactBytes) == (l.usage.artifactBytes + l.reserved.artifactBytes + n) as real;
  }
}
