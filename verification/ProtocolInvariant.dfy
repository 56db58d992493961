/** What the shared store records about every revision and every decision, and why each unit
    of work keeps it. */
module ProtocolInvariant {
  import opened Wrappers
  import opened Identifiers
  import opened Ledgers
  import opened Revisions
  import opened Protocol

  // ----- Selecting from the journal -----

  datatype Topic = DecisionOf(request: RequestId) | OutcomeOf(request: RequestId) | CreationOf(revisionId: string)

  predicate Concerns(e: Event, t: Topic) {
    match t
    case DecisionOf(r) => e.DecidedEvent? && e.request == r
    case OutcomeOf(r) => (e.RejectedEvent? || e.ConflictedEvent? || e.CreatedEvent?) && e.request == r
    case CreationOf(id) => e.CreatedEvent? && e.revisionId == id
  }

  /** The journal events on one topic, in journal order. */
  function Select(journal: seq<Event>, t: Topic): seq<Event> {
    if journal == [] then []
    else
      var earlier := Select(journal[..|journal| - 1], t);
      if Concerns(journal[|journal| - 1], t) then earlier + [journal[|journal| - 1]] else earlier
  }

  lemma SelectAppended(journal: seq<Event>, e: Event, t: Topic)
    ensures Select(journal + [e], t) == if Concerns(e, t) then Select(journal, t) + [e] else Select(journal, t)
  {
  }

  // ----- The store invariant -----

  /** A decided approval names its actor; a pending one names none. */
  predicate ApprovalsWellFormed(approvals: map<RequestId, Approval>) {
    forall r :: r in approvals ==> (approvals[r].status == Pending <==> approvals[r].actor.None?)
  }

  predicate IsDecided(approvals: map<RequestId, Approval>, r: RequestId) {
    r in approvals && approvals[r].status != Pending && approvals[r].actor.Some?
  }

  function ExpectedDecisions(approvals: map<RequestId, Approval>, r: RequestId): seq<Event> {
    if IsDecided(approvals, r) then [DecidedEvent(r, approvals[r].status, approvals[r].actor.value)] else []
  }

  /** Exactly one decision event for each decided request, repeating its row; none otherwise. */
  ghost predicate DecisionsRecorded(journal: seq<Event>, approvals: map<RequestId, Approval>) {
    forall r: RequestId :: Select(journal, DecisionOf(r)) == ExpectedDecisions(approvals, r)
  }

  /** Exactly one outcome for each decided request: a rejection for a rejected one, a creation
      or a conflict for an approved one; none otherwise. */
  predicate OutcomeFits(outcome: seq<Event>, approvals: map<RequestId, Approval>, r: RequestId) {
    if IsDecided(approvals, r) then |outcome| == 1 && (outcome[0].RejectedEvent? <==> approvals[r].status == Rejected)
    else outcome == []
  }

  ghost predicate OutcomesRecorded(journal: seq<Event>, approvals: map<RequestId, Approval>) {
    forall r: RequestId :: OutcomeFits(Select(journal, OutcomeOf(r)), approvals, r)
  }

  /** The request's digests cover exactly the content of the revision. */
  predicate Authorizes(request: RequestId, r: Revision) {
    && request.designId == r.designId
    && request.action.plannedRevisionId == r.revisionId
    && request.action.plannedSequence == r.sequence
    && request.action.expectedHead == r.parentRevisionId
    && request.action.state == request.state
    && request.state.spec == r.spec
    && request.state.artifact == r.artifact
    && request.state.provenanceId == r.provenanceId
  }

  /** The request's state digest was computed from the very revision that `r` extends. */
  predicate ComputedFromParent(request: RequestId, rows: seq<Revision>, r: Revision) {
    var h := History(rows, r.designId);
    && r.sequence < |h| && h[r.sequence] == r
    && request.state.head == if r.sequence == 0 then None else Some(FactsOf(h[r.sequence - 1]))
  }

  function ProvenanceOf(request: RequestId): Provenance {
    Provenance(request.state.provenanceId, request.designId, request.state.artifact, request.state.packageDigest,
               request.state.parents, request.state.transformations)
  }

  /** The creation event of a stored revision names the approved request that wrote it. */
  predicate CreationFits(approvals: map<RequestId, Approval>, rows: seq<Revision>, e: Event, r: Revision) {
    && e.CreatedEvent?
    && e.revisionId == r.revisionId
    && e.request in approvals && approvals[e.request] == Approval(Approved, Some(e.actor))
    && Authorizes(e.request, r)
    && ComputedFromParent(e.request, rows, r)
    && e.provenance == ProvenanceOf(e.request)
  }

  predicate CreationsFit(created: seq<Event>, approvals: map<RequestId, Approval>, rows: seq<Revision>, id: string) {
    var found := GetRevision(rows, id);
    if found.None? then created == [] else |created| == 1 && CreationFits(approvals, rows, created[0], found.value)
  }

  /** Exactly one creation event per stored revision, and none for any other identifier. */
  ghost predicate CreationsRecorded(journal: seq<Event>, approvals: map<RequestId, Approval>, rows: seq<Revision>) {
    forall id: string :: CreationsFit(Select(journal, CreationOf(id)), approvals, rows, id)
  }

  /** Every journalled preparation holds what its request's digests cover, so the first one of
      a request is as good as any later one. */
  predicate PreparationsDigested(journal: seq<Event>) {
    forall i :: 0 <= i < |journal| && journal[i].PreparedEvent? ==> journal[i].payload == PayloadOf(journal[i].request)
  }

  /** A recorded conflict was lost to a revision that really took the planned place. */
  predicate ConflictsAreReal(journal: seq<Event>, rows: seq<Revision>) {
    forall i :: 0 <= i < |journal| && journal[i].ConflictedEvent? ==>
                  GetRevision(rows, journal[i].request.action.plannedRevisionId).Some?
  }

  predicate KernelRecorded(store: Store) {
    && (store.journal != [] ==> store.savedPolicy.Some? && store.savedBudget.Some?)
    && (store.savedPolicy.Some? <==> store.savedBudget.Some?)
  }

  /** A policy engine never holds a decision the store does not hold, nor tracks a request the
      store has never seen. */
  predicate NeverAhead(policy: Policy, approvals: map<RequestId, Approval>) {
    forall r :: r in policy.status ==>
                  && r in approvals
                  && (policy.status[r] != Pending ==> approvals[r].status == policy.status[r])
  }

  ghost predicate StoreInvariant(store: Store) {
    && Chained(store.revisions)
    && ApprovalsWellFormed(store.approvals)
    && DecisionsRecorded(store.journal, store.approvals)
    && OutcomesRecorded(store.journal, store.approvals)
    && CreationsRecorded(store.journal, store.approvals, store.revisions)
    && PreparationsDigested(store.journal)
    && ConflictsAreReal(store.journal, store.revisions)
    && KernelRecorded(store)
    && (store.savedPolicy.Some? ==> NeverAhead(store.savedPolicy.value, store.approvals))
  }

  // ----- What a derivation keeps until its unit runs -----

  /** The commit was derived from some earlier, or the present, state of the table. */
  predicate DescribesPast(d: Derived, rows: seq<Revision>) {
    exists n :: 0 <= n <= |rows| && DescribesHead(d, rows[..n])
  }

  lemma PastStaysPast(d: Derived, rows: seq<Revision>, rows': seq<Revision>)
    requires DescribesPast(d, rows) && rows <= rows'
    ensures DescribesPast(d, rows')
  {
    var n :| 0 <= n <= |rows| && DescribesHead(d, rows[..n]);
    assert rows'[..n] == rows[..n];
  }

  /** The compare-and-swap accepts exactly when the digests describe the present head, and it
      never meets a taken key. */
  lemma SwapAcceptsPresentHead(d: Derived, rows: seq<Revision>)
    requires Chained(rows) && Coherent(d) && DescribesPast(d, rows)
    ensures CompareAndSwap(rows, d.ToRevision(), d.expectedHead) ==
            if DescribesHead(d, rows) then Inserted(rows + [d.ToRevision()]) else LostRace
  {
    var n :| 0 <= n <= |rows| && DescribesHead(d, rows[..n]);
    ChainedPrefix(rows, n);
    DescribedHeadContinues(d, rows[..n]);
    HeadUnchangedIffNothingStored(rows[..n], rows, d.designId);
    if DescribesHead(d, rows) {
      DescribedHeadContinues(d, rows);
    }
  }

  /** Losing the compare-and-swap means that the planned revision identifier is taken. */
  lemma LostRaceIsReal(d: Derived, rows: seq<Revision>)
    requires Chained(rows) && Coherent(d) && DescribesPast(d, rows) && !DescribesHead(d, rows)
    ensures GetRevision(rows, d.revisionId).Some?
  {
    var n :| 0 <= n <= |rows| && DescribesHead(d, rows[..n]);
    ChainedPrefix(rows, n);
    DescribedHeadContinues(d, rows[..n]);
    HeadUnchangedIffNothingStored(rows[..n], rows, d.designId);
    LookupFindsHistory(rows, d.designId, d.sequence);
  }

  lemma ConflictsStayReal(journal: seq<Event>, e: Event, rows: seq<Revision>, rows': seq<Revision>)
    requires ConflictsAreReal(journal, rows) && rows <= rows'
    requires e.ConflictedEvent? ==> GetRevision(rows, e.request.action.plannedRevisionId).Some?
    ensures ConflictsAreReal(journal + [e], rows')
  {
  }

  // ----- Units keep the invariant -----

  /** Deciding a request, or recording it as pending again, leaves the evidence of every
      revision that other requests wrote as it was. */
  lemma EvidencePersists(approvals: map<RequestId, Approval>, rows: seq<Revision>, rows': seq<Revision>, e: Event, r: Revision,
                         request: RequestId, row: Approval)
    requires CreationFits(approvals, rows, e, r) && !IsDecided(approvals, request) && rows <= rows'
    ensures CreationFits(approvals[request := row], rows', e, r)
  {
    assert rows' == rows + rows'[|rows|..];
    HistoryAppend(rows, rows'[|rows|..], r.designId);
    assert IsDecided(approvals, e.request);
  }

  /** Recording a pending approval of an undecided request changes no record. */
  lemma PendingKeepsRecords(journal: seq<Event>, journal': seq<Event>, approvals: map<RequestId, Approval>, rows: seq<Revision>, request: RequestId)
    requires DecisionsRecorded(journal, approvals) && OutcomesRecorded(journal, approvals) && CreationsRecorded(journal, approvals, rows)
    requires !IsDecided(approvals, request)
    requires forall t: Topic :: Select(journal', t) == Select(journal, t)
    ensures var after := approvals[request := Approval(Pending, None)];
            DecisionsRecorded(journal', after) && OutcomesRecorded(journal', after) && CreationsRecorded(journal', after, rows)
  {
  }

  lemma PrepareKeepsStore(store: Store, process: Process, d: Derived, evicted: set<RequestId>)
    requires StoreInvariant(store) && NeverAhead(process.policy, store.approvals) && Coherent(d)
    ensures var u := PrepareUnit(store, process, d, evicted);
            StoreInvariant(u.store) && NeverAhead(u.policy, u.store.approvals)
  {
    if Undecided(store, process.policy, d.requestId) {
      var e := PreparedEvent(d.requestId, PreparedPayload(d));
      forall t: Topic
        ensures Select(store.journal + [e], t) == Select(store.journal, t)
      {
        SelectAppended(store.journal, e, t);
      }
      PendingKeepsRecords(store.journal, store.journal + [e], store.approvals, store.revisions, d.requestId);
      ConflictsStayReal(store.journal, e, store.revisions, store.revisions);
    }
  }

  predicate IsOutcome(e: Event, request: RequestId, status: Status) {
    && (e.RejectedEvent? || e.ConflictedEvent? || e.CreatedEvent?)
    && e.request == request
    && (e.RejectedEvent? <==> status == Rejected)
  }

  /** A decision adds one decision event, then one outcome event, for its request alone. */
  lemma DecisionKeepsRecords(journal: seq<Event>, approvals: map<RequestId, Approval>, request: RequestId, status: Status, actor: string, outcome: Event)
    requires DecisionsRecorded(journal, approvals) && OutcomesRecorded(journal, approvals)
    requires !IsDecided(approvals, request) && status != Pending && IsOutcome(outcome, request, status)
    ensures var after := approvals[request := Approval(status, Some(actor))];
            var journal' := journal + [DecidedEvent(request, status, actor)] + [outcome];
            DecisionsRecorded(journal', after) && OutcomesRecorded(journal', after)
  {
    var decided, after := DecidedEvent(request, status, actor), approvals[request := Approval(status, Some(actor))];
    var journal' := journal + [decided] + [outcome];
    forall r: RequestId
      ensures Select(journal', DecisionOf(r)) == ExpectedDecisions(after, r)
      ensures OutcomeFits(Select(journal', OutcomeOf(r)), after, r)
    {
      SelectAppended(journal, decided, DecisionOf(r));
      SelectAppended(journal + [decided], outcome, DecisionOf(r));
      SelectAppended(journal, decided, OutcomeOf(r));
      SelectAppended(journal + [decided], outcome, OutcomeOf(r));
      assert Select(journal, DecisionOf(r)) == ExpectedDecisions(approvals, r);
      assert OutcomeFits(Select(journal, OutcomeOf(r)), approvals, r);
    }
  }

  lemma QuietDecisionKeepsCreations(journal: seq<Event>, approvals: map<RequestId, Approval>, rows: seq<Revision>,
                                    request: RequestId, status: Status, actor: string, outcome: Event)
    requires CreationsRecorded(journal, approvals, rows) && !IsDecided(approvals, request)
    requires outcome.RejectedEvent? || outcome.ConflictedEvent?
    ensures CreationsRecorded(journal + [DecidedEvent(request, status, actor)] + [outcome], approvals[request := Approval(status, Some(actor))], rows)
  {
  }

  lemma CommitKeepsCreations(journal: seq<Event>, approvals: map<RequestId, Approval>, rows: seq<Revision>, d: Derived, actor: string)
    requires CreationsRecorded(journal, approvals, rows) && Chained(rows) && !IsDecided(approvals, d.requestId)
    requires Coherent(d) && DescribesHead(d, rows)
    ensures CreationsRecorded(journal + [DecidedEvent(d.requestId, Approved, actor)] + [CreatedEvent(d.requestId, actor, d.revisionId, d.ToProvenance())],
                              approvals[d.requestId := Approval(Approved, Some(actor))], rows + [d.ToRevision()])
  {
    var decided, created := DecidedEvent(d.requestId, Approved, actor), CreatedEvent(d.requestId, actor, d.revisionId, d.ToProvenance());
    var after, rows' := approvals[d.requestId := Approval(Approved, Some(actor))], rows + [d.ToRevision()];
    assert rows'[..|rows'| - 1] == rows;
    DescribedHeadContinues(d, rows);
    NewRevisionIsComputedFromParent(d, rows);
    forall id: string
      ensures CreationsFit(Select(journal + [decided] + [created], CreationOf(id)), after, rows', id)
    {
      SelectAppended(journal, decided, CreationOf(id));
      SelectAppended(journal + [decided], created, CreationOf(id));
      var earlier := Select(journal, CreationOf(id));
      assert CreationsFit(earlier, approvals, rows, id);
      if earlier != [] {
        EvidencePersists(approvals, rows, rows', earlier[0], GetRevision(rows, id).value, d.requestId, after[d.requestId]);
      }
    }
  }

  lemma NewRevisionIsComputedFromParent(d: Derived, rows: seq<Revision>)
    requires Chained(rows) && Coherent(d) && DescribesHead(d, rows)
    ensures ComputedFromParent(d.requestId, rows + [d.ToRevision()], d.ToRevision())
    ensures Chained(rows + [d.ToRevision()])
  {
    DescribedHeadContinues(d, rows);
    ChainedAppend(rows, d.ToRevision());
    LatestIsLastOfHistory(rows, d.designId);
    assert (rows + [d.ToRevision()])[..|rows|] == rows;
  }

  function DecidedStore(store: Store, rows: seq<Revision>, request: RequestId, status: Status, actor: string, outcome: Event,
                        policy: Policy, budget: Ledger): Store {
    Store(rows, store.approvals[request := Approval(status, Some(actor))],
          store.journal + [DecidedEvent(request, status, actor)] + [outcome], Some(policy), Some(budget))
  }

  /** A unit that records a decision and its outcome keeps the store invariant, given that its
      rows, creations and conflict are in order. */
  lemma DecidedStoreIsInvariant(store: Store, rows: seq<Revision>, request: RequestId, status: Status, actor: string, outcome: Event,
                                policy: Policy, budget: Ledger)
    requires StoreInvariant(store) && !IsDecided(store.approvals, request)
    requires status != Pending && IsOutcome(outcome, request, status)
    requires Chained(rows) && store.revisions <= rows
    requires var after := DecidedStore(store, rows, request, status, actor, outcome, policy, budget);
             CreationsRecorded(after.journal, after.approvals, rows) && NeverAhead(policy, after.approvals)
    requires outcome.ConflictedEvent? ==> GetRevision(store.revisions, request.action.plannedRevisionId).Some?
    ensures StoreInvariant(DecidedStore(store, rows, request, status, actor, outcome, policy, budget))
  {
    var decided := DecidedEvent(request, status, actor);
    DecisionKeepsRecords(store.journal, store.approvals, request, status, actor, outcome);
    ConflictsStayReal(store.journal, decided, store.revisions, store.revisions);
    ConflictsStayReal(store.journal + [decided], outcome, store.revisions, rows);
    hide DecisionsRecorded, OutcomesRecorded, CreationsRecorded, GetRevision, Chained, ConflictsAreReal, NeverAhead;
  }

  lemma DecideKeepsStore(store: Store, process: Process, d: Derived, verdict: Verdict, actor: string, evicted: set<RequestId>)
    requires StoreInvariant(store) && NeverAhead(process.policy, store.approvals)
    requires Coherent(d) && DescribesPast(d, store.revisions)
    ensures var u := DecideUnit(store, process, d, verdict, actor, evicted);
            && StoreInvariant(u.store) && NeverAhead(u.policy, u.store.approvals)
            && u.result != Err(StorageFailure)
  {
    hide DecisionsRecorded, OutcomesRecorded, CreationsRecorded, GetRevision, LatestForDesign, Chained, ConflictsAreReal;
    var request, rows := d.requestId, store.revisions;
    var status := if verdict == Approve then Approved else Rejected;
    var u := DecideUnit(store, process, d, verdict, actor, evicted);
    SwapAcceptsPresentHead(d, rows);
    if u.result.Ok? {
      var outcome := u.store.journal[|u.store.journal| - 1];
      if u.result.value.Committed? {
        CommitKeepsCreations(store.journal, store.approvals, rows, d, actor);
        NewRevisionIsComputedFromParent(d, rows);
      } else {
        QuietDecisionKeepsCreations(store.journal, store.approvals, rows, request, status, actor, outcome);
        if outcome.ConflictedEvent? {
          LostRaceIsReal(d, rows);
        }
      }
      DecidedStoreIsInvariant(store, u.store.revisions, request, status, actor, outcome, u.policy, process.budget);
      assert u.store == DecidedStore(store, u.store.revisions, request, status, actor, outcome, u.policy, process.budget);
    }
  }
}
