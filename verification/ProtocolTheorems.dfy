/** The guarantees of the commit protocol, for every run of any number of processes. */
module ProtocolTheorems {
  import opened Wrappers
  import opened Identifiers
  import opened Ledgers
  import opened Revisions
  import opened Rederivation
  import opened Protocol
  import opened ProtocolInvariant
  import opened ProtocolRuns
  import Usage
  import LedgerImports
  import LedgerRuns

  // ----- One unforked chain per design -----

  /** The rows of one design are the chain r0, r1, r2, ...: sequences without gap or fork, the
      identifiers derived from them, and each parent the revision before; the head is its last
      revision, and every row of the design is in it. */
  predicate UnforkedHistory(rows: seq<Revision>, design: string) {
    var h := History(rows, design);
    && (forall k :: 0 <= k < |h| ==> Linked(h[k], design, k))
    && LatestForDesign(rows, design) == (if h == [] then None else Some(h[|h| - 1]))
    && forall i :: 0 <= i < |rows| && rows[i].designId == design ==> rows[i] in h
  }

  /** In every reachable state, the history of every design is unforked. */
  lemma HistoriesAreUnforked(c: Config, s: System, design: string)
    requires Reachable(c, s)
    ensures UnforkedHistory(s.store.revisions, design)
  {
    ReachableIsInvariant(c, s);
    var rows := s.store.revisions;
    HistoryIsUnforked(rows, design);
    LatestIsLastOfHistory(rows, design);
    forall i | 0 <= i < |rows| && rows[i].designId == design
      ensures rows[i] in History(rows, design)
    {
      RowIsInHistory(rows, i);
    }
  }

  // ----- Evidence for every revision -----

  lemma {:induction false} SelectedAreInJournal(journal: seq<Event>, t: Topic, e: Event)
    ensures e in Select(journal, t) <==> e in journal && Concerns(e, t)
  {
    if journal != [] {
      SelectedAreInJournal(journal[..|journal| - 1], t, e);
      assert journal == journal[..|journal| - 1] + [journal[|journal| - 1]];
    }
  }

  lemma {:induction false} ProvenanceIsFirstCreation(journal: seq<Event>, id: string)
    ensures var created := Select(journal, CreationOf(id));
            && (forall i :: 0 <= i < |created| ==> created[i].CreatedEvent?)
            && RecordedProvenance(journal, id) == if created == [] then None else Some(created[0].provenance)
  {
    if journal != [] {
      ProvenanceIsFirstCreation(journal[..|journal| - 1], id);
    }
  }

  /** The revision was written under exactly one creation event, which names a request that was
      approved, once, by the actor recorded; the request's state digest was computed from the
      very head the revision extends; and its provenance can be read back. */
  predicate Authorized(store: Store, r: Revision) {
    var created := Select(store.journal, CreationOf(r.revisionId));
    && |created| == 1 && CreationFits(store.approvals, store.revisions, created[0], r)
    && Select(store.journal, DecisionOf(created[0].request)) == [DecidedEvent(created[0].request, Approved, created[0].actor)]
    && RecordedProvenance(store.journal, r.revisionId) == Some(ProvenanceOf(created[0].request))
  }

  /** In every reachable state, every stored revision was authorized. */
  lemma EveryRevisionIsAuthorized(c: Config, s: System, r: Revision)
    requires Reachable(c, s) && r in s.store.revisions
    ensures Authorized(s.store, r)
  {
    ReachableIsInvariant(c, s);
    var store := s.store;
    RowsAreInHistory(store.revisions, r);
    HistoryIsUnforked(store.revisions, r.designId);
    LookupFindsHistory(store.revisions, r.designId, r.sequence);
    var created := Select(store.journal, CreationOf(r.revisionId));
    assert CreationsFit(created, store.approvals, store.revisions, r.revisionId);
    ProvenanceIsFirstCreation(store.journal, r.revisionId);
    assert Select(store.journal, DecisionOf(created[0].request)) == ExpectedDecisions(store.approvals, created[0].request);
  }

  datatype RevisionRecord = RevisionRecord(revision: Revision, provenance: Provenance)

  /** `get_design_revision`: the stored revision together with its journalled provenance. */
  function ReadBack(store: Store, revisionId: string): Result<RevisionRecord, Error> {
    var id := RequireIdentifier(revisionId, MAX_IDENTIFIER_LENGTH);
    if id.None? then Err(InvalidIdentifier)
    else
      var row := GetRevision(store.revisions, id.value);
      if row.None? then Err(UnknownRevision)
      else
        var provenance := RecordedProvenance(store.journal, row.value.revisionId);
        if provenance.None? then Err(ProvenanceUnavailable) else Ok(RevisionRecord(row.value, provenance.value))
  }

  /** In every reachable state, every stored revision can be read back with the provenance its
      authorisation covered, exactly if its identifier is one that a caller may pass. */
  lemma EveryRevisionReadsBack(c: Config, s: System, r: Revision)
    requires Reachable(c, s) && r in s.store.revisions
    ensures Authorized(s.store, r)
    ensures var request := Select(s.store.journal, CreationOf(r.revisionId))[0].request;
            ReadBack(s.store, r.revisionId) == Ok(RevisionRecord(r, ProvenanceOf(request))) <==> IsIdentifier(r.revisionId, MAX_IDENTIFIER_LENGTH)
  {
    EveryRevisionIsAuthorized(c, s, r);
    StoredRevisionIsFound(c, s, r);
    hide Reachable, ReadBack, IsIdentifier, Select, CreationFits, GetRevision, RecordedProvenance;
    FoundRevisionReadsBack(s.store, r, ProvenanceOf(Select(s.store.journal, CreationOf(r.revisionId))[0].request));
  }

  lemma FoundRevisionReadsBack(store: Store, r: Revision, provenance: Provenance)
    requires GetRevision(store.revisions, r.revisionId) == Some(r) && RecordedProvenance(store.journal, r.revisionId) == Some(provenance)
    ensures ReadBack(store, r.revisionId) == Ok(RevisionRecord(r, provenance)) <==> IsIdentifier(r.revisionId, MAX_IDENTIFIER_LENGTH)
  {
    hide RequireIdentifier, IsIdentifier, GetRevision, RecordedProvenance;
    ValidIdentifierIsKept(r.revisionId, MAX_IDENTIFIER_LENGTH);
  }

  lemma StoredRevisionIsFound(c: Config, s: System, r: Revision)
    requires Reachable(c, s) && r in s.store.revisions
    ensures GetRevision(s.store.revisions, r.revisionId) == Some(r)
  {
    ReachableIsInvariant(c, s);
    RowsAreInHistory(s.store.revisions, r);
    HistoryIsUnforked(s.store.revisions, r.designId);
    LookupFindsHistory(s.store.revisions, r.designId, r.sequence);
  }

  predicate WroteRevision(journal: seq<Event>, request: RequestId) {
    exists i :: 0 <= i < |journal| && journal[i].CreatedEvent? && journal[i].request == request
  }

  /** An approved request either wrote its revision or lost to the one stored in its place. */
  lemma ApprovedTakesItsPlace(store: Store, request: RequestId)
    requires StoreInvariant(store) && IsDecided(store.approvals, request) && store.approvals[request].status == Approved
    ensures GetRevision(store.revisions, request.action.plannedRevisionId).Some?
  {
    var outcome := Select(store.journal, OutcomeOf(request));
    assert OutcomeFits(outcome, store.approvals, request);
    SelectedAreInJournal(store.journal, OutcomeOf(request), outcome[0]);
    if outcome[0].CreatedEvent? {
      var id := outcome[0].revisionId;
      SelectedAreInJournal(store.journal, CreationOf(id), outcome[0]);
      assert CreationsFit(Select(store.journal, CreationOf(id)), store.approvals, store.revisions, id);
    }
  }

  /** An undecided request has no outcome and a decided one exactly one; only an approval that
      won its race wrote a revision, and one that lost did so to a revision really stored. */
  predicate OutcomeIsExact(store: Store, request: RequestId) {
    var outcome := Select(store.journal, OutcomeOf(request));
    && (outcome == [] <==> !IsDecided(store.approvals, request))
    && (outcome != [] ==> |outcome| == 1 && (outcome[0].RejectedEvent? <==> store.approvals[request].status == Rejected))
    && (WroteRevision(store.journal, request) <==> outcome != [] && outcome[0].CreatedEvent?)
    && (outcome != [] && !outcome[0].RejectedEvent? ==> GetRevision(store.revisions, request.action.plannedRevisionId).Some?)
  }

  /** In every reachable state, exactly the approved requests that won their race wrote. */
  lemma OnlyTheWinnerWrites(c: Config, s: System, request: RequestId)
    requires Reachable(c, s)
    ensures OutcomeIsExact(s.store, request)
  {
    ReachableIsInvariant(c, s);
    var store := s.store;
    var outcome := Select(store.journal, OutcomeOf(request));
    assert OutcomeFits(outcome, store.approvals, request);
    if outcome != [] && !outcome[0].RejectedEvent? {
      ApprovedTakesItsPlace(store, request);
    }
    WritingIsAnOutcome(store.journal, request);
  }

  lemma {:induction false} WritingIsAnOutcome(journal: seq<Event>, request: RequestId)
    requires |Select(journal, OutcomeOf(request))| <= 1
    ensures var outcome := Select(journal, OutcomeOf(request));
            WroteRevision(journal, request) <==> outcome != [] && outcome[0].CreatedEvent?
  {
    var outcome := Select(journal, OutcomeOf(request));
    if WroteRevision(journal, request) {
      var i :| 0 <= i < |journal| && journal[i].CreatedEvent? && journal[i].request == request;
      SelectedAreInJournal(journal, OutcomeOf(request), journal[i]);
    }
    if outcome != [] {
      SelectedAreInJournal(journal, OutcomeOf(request), outcome[0]);
    }
  }

  /** A single-use authorization writes at most one revision. */
  lemma AtMostOneRevisionPerRequest(c: Config, s: System, r1: Revision, r2: Revision)
    requires Reachable(c, s) && r1 in s.store.revisions && r2 in s.store.revisions
    ensures Authorized(s.store, r1) && Authorized(s.store, r2)
    ensures var journal := s.store.journal;
            Select(journal, CreationOf(r1.revisionId))[0].request == Select(journal, CreationOf(r2.revisionId))[0].request ==> r1 == r2
  {
    EveryRevisionIsAuthorized(c, s, r1);
    EveryRevisionIsAuthorized(c, s, r2);
    ReachableIsInvariant(c, s);
    RowsAreInHistory(s.store.revisions, r1);
    RowsAreInHistory(s.store.revisions, r2);
  }

  // ----- A preparation is single-use -----

  /** Over whole runs, a stored decision is never changed or withdrawn, and rows and events are
      only appended. */
  lemma DecisionsAreFinal(c: Config, before: System, s: System, request: RequestId)
    requires Later(c, before, s) && IsDecided(before.store.approvals, request)
    ensures Evolves(before.store, s.store)
    ensures IsDecided(s.store.approvals, request) && s.store.approvals[request] == before.store.approvals[request]
  {
    LaterEvolves(c, before, s);
  }

  /** Every attempt, by a process in any state, to prepare or decide a request again that the
      store holds a decision for is refused and writes nothing. */
  lemma DecidedRequestsAreRefused(pk: Packages, store: Store, artifacts: set<string>, process: Process, d: Derived,
                                  verdict: Verdict, actor: string, evicted: set<RequestId>,
                                  expectedState: Option<StateDigest>, expectedAction: Option<ActionDigest>)
    requires IsDecided(store.approvals, d.requestId)
    ensures PrepareUnit(store, process, d, evicted) == Unit(store, process.policy, Err(NotPending))
    ensures DecideUnit(store, process, d, verdict, actor, evicted) == Unit(store, process.policy, Err(NotPending))
    ensures BeginDecision(pk, store, artifacts, process.policy, d.requestId, expectedState, expectedAction)
              in {Err(InvalidIdentifier), Err(UnknownPrepared), Err(NotPending)}
  {
  }

  /** The action is a half of an operation on this request. */
  predicate Targets(s: System, a: Action, request: RequestId) {
    match a
    case FinishPrepare(flight, _) => flight in s.flights && s.flights[flight].derived.requestId == request
    case FinishDecision(flight, _) => flight in s.flights && s.flights[flight].derived.requestId == request
    case StartDecision(_, _, r, _, _, _, _) => r == request
    case _ => false
  }

  /** Once a request is decided, whatever happens later in any process, every further half of
      an operation on it leaves the store as it is, and no decision on it starts. */
  lemma DecidedRequestsAreInert(c: Config, before: System, s: System, request: RequestId, a: Action)
    requires Later(c, before, s) && IsDecided(before.store.approvals, request) && Targets(s, a, request)
    ensures Next(c, s, a).store == s.store
    ensures a.StartDecision? ==> Next(c, s, a) == s
  {
    DecisionsAreFinal(c, before, s, request);
    hide Later, PrepareUnit, DecideUnit, BeginDecision;
    match a
    case FinishPrepare(flight, evicted) =>
      var f := s.flights[flight];
      if f.pid in s.processes {
        DecidedRequestsAreRefused(c.packages, s.store, s.artifacts, s.processes[f.pid], f.derived, Approve, "", evicted, None, None);
      }
    case FinishDecision(flight, evicted) =>
      var f := s.flights[flight];
      if f.Deciding? && f.pid in s.processes {
        DecidedRequestsAreRefused(c.packages, s.store, s.artifacts, s.processes[f.pid], f.derived, f.verdict, f.actor, evicted, None, None);
      }
    case StartDecision(flight, pid, _, verdict, actor, expectedState, expectedAction) =>
      if pid in s.processes {
        DecisionCannotBegin(c.packages, s.store, s.artifacts, s.processes[pid].policy, request, expectedState, expectedAction);
      }
  }

  lemma DecisionCannotBegin(pk: Packages, store: Store, artifacts: set<string>, policy: Policy, request: RequestId,
                            expectedState: Option<StateDigest>, expectedAction: Option<ActionDigest>)
    requires IsDecided(store.approvals, request)
    ensures BeginDecision(pk, store, artifacts, policy, request, expectedState, expectedAction).Err?
  {
    hide Rederive;
  }

  /** A successful derivation depends on the store through the history of its design alone. */
  lemma DerivationDependsOnHistory(pk: Packages, rows: seq<Revision>, rows': seq<Revision>, subject: string, inputs: Inputs)
    requires Chained(rows) && Chained(rows') && rows <= rows'
    requires Derive(pk, rows, subject, inputs).Ok? && History(rows, subject) == History(rows', subject)
    ensures Derive(pk, rows', subject, inputs) == Derive(pk, rows, subject, inputs)
  {
    hide RequireIdentifier, RequireText, LatestForDesign, GetRevision, Chained, History;
    HeadUnchangedIffNothingStored(rows, rows', subject);
    if LatestForDesign(rows, subject).Some? {
      OldRevisionsStayStored(rows, rows, subject);
      OldRevisionsStayStored(rows, rows', subject);
    }
  }

  /** As long as nothing was stored for the design and the request is undecided, preparing the
      same inputs again, in any process, is accepted exactly if its budget still affords the
      report; it then yields the same request and leaves the first preparation the one that a
      decision finds. */
  lemma PreparingAgainRepeats(c: Config, before: System, s: System, pid: nat, subject: string, inputs: Inputs, evicted: set<RequestId>)
    requires Later(c, before, s) && pid in s.processes
    requires Derive(c.packages, before.store.revisions, subject, inputs).Ok?
    requires PreparedCommit(before.store.journal, Derive(c.packages, before.store.revisions, subject, inputs).value.requestId).Some?
    requires History(s.store.revisions, subject) == History(before.store.revisions, subject)
    requires Undecided(s.store, s.processes[pid].policy, Derive(c.packages, before.store.revisions, subject, inputs).value.requestId)
    ensures var derived := Derive(c.packages, before.store.revisions, subject, inputs);
            var again := PublishCommit(c.packages, s.store.revisions, s.artifacts, s.processes[pid].budget, subject, inputs);
            again.result == if Consume(s.processes[pid].budget, ArtifactCharge(derived.value.artifact.content)).1.Ok? then derived else Err(BudgetExhausted)
    ensures var d := Derive(c.packages, before.store.revisions, subject, inputs).value;
            var again := PublishCommit(c.packages, s.store.revisions, s.artifacts, s.processes[pid].budget, subject, inputs);
            var u := PrepareUnit(s.store, s.processes[pid].(budget := again.budget), d, evicted);
            && u.result == Ok(d.requestId)
            && u.store.revisions == s.store.revisions
            && PreparedCommit(u.store.journal, d.requestId) == PreparedCommit(before.store.journal, d.requestId)
  {
    LaterEvolves(c, before, s);
    hide Derive, Later, Undecided, PreparedCommit, Chained, History, NeverAhead, PublishCommit;
    DerivationDependsOnHistory(c.packages, before.store.revisions, s.store.revisions, subject, inputs);
    PublicationIsCharged(c.packages, s.store.revisions, s.artifacts, s.processes[pid].budget, subject, inputs);
    var d := Derive(c.packages, before.store.revisions, subject, inputs).value;
    PreparationsAreKept(before.store.journal, s.store.journal, d.requestId);
    PreparationsAreKept(s.store.journal, s.store.journal + [PreparedEvent(d.requestId, PreparedPayload(d))], d.requestId);
  }

  /** What can be derived is published unless the budget does not afford the report. */
  lemma PublicationIsCharged(pk: Packages, rows: seq<Revision>, artifacts: set<string>, budget: Ledger, subject: string, inputs: Inputs)
    requires Derive(pk, rows, subject, inputs).Ok?
    ensures PublishCommit(pk, rows, artifacts, budget, subject, inputs).result ==
            if Consume(budget, ArtifactCharge(Derive(pk, rows, subject, inputs).value.artifact.content)).1.Ok? then Derive(pk, rows, subject, inputs)
            else Err(BudgetExhausted)
  {
    hide RequireIdentifier, LatestForDesign, GetRevision, Consume;
  }

  // ----- Design ids too long to decide -----

  /** The second phase can only begin for a request its design id leaves short enough. */
  lemma LongDesignsCannotBeDecided(pk: Packages, store: Store, artifacts: set<string>, policy: Policy, request: RequestId,
                                   expectedState: Option<StateDigest>, expectedAction: Option<ActionDigest>)
    ensures |request.designId| > 23 ==> BeginDecision(pk, store, artifacts, policy, request, expectedState, expectedAction) == Err(InvalidIdentifier)
    ensures |request.designId| <= 23 <==> Decidable(request)
  {
  }

  /** What is decided, or about to be, passed the length check. */
  predicate OnlyShortDecided(s: System) {
    && (forall r :: r in s.store.approvals && IsDecided(s.store.approvals, r) ==> Decidable(r))
    && (forall f :: f in s.flights && s.flights[f].Deciding? ==> Decidable(s.flights[f].derived.requestId))
  }

  lemma BegunDecisionIsForItsRequest(pk: Packages, store: Store, artifacts: set<string>, policy: Policy, request: RequestId,
                                     expectedState: Option<StateDigest>, expectedAction: Option<ActionDigest>)
    requires PreparationsDigested(store.journal)
    requires BeginDecision(pk, store, artifacts, policy, request, expectedState, expectedAction).Ok?
    ensures BeginDecision(pk, store, artifacts, policy, request, expectedState, expectedAction).value.requestId == request && Decidable(request)
  {
    hide Rederive, Decidable, Undecided;
    PreparedIsDigested(store.journal, request);
    RederivationIsCoherent(pk, store.revisions, artifacts, PreparedCommit(store.journal, request).value);
  }

  lemma StepKeepsShort(c: Config, s: System, a: Action)
    requires Invariant(s) && OnlyShortDecided(s)
    ensures OnlyShortDecided(Next(c, s, a))
  {
    hide PublishCommit, SoundBudget, Restart, BeginDecision, AcceptInputs, Derive, Decidable, CompareAndSwap, Coherent, DescribesPast;
    hide DecisionsRecorded, OutcomesRecorded, CreationsRecorded, ConflictsAreReal, Chained, NeverAhead, NotesBehind, ProcessesBehind, PolicyLeft;
    if a.StartDecision? && a.pid in s.processes {
      var begun := BeginDecision(c.packages, s.store, s.artifacts, s.processes[a.pid].policy, a.request, a.expectedState, a.expectedAction);
      if begun.Ok? {
        BegunDecisionIsForItsRequest(c.packages, s.store, s.artifacts, s.processes[a.pid].policy, a.request, a.expectedState, a.expectedAction);
      }
    }
  }

  lemma {:induction false} StepsKeepShort(c: Config, s: System, actions: seq<Action>)
    requires c.limits.Valid() && Invariant(s) && OnlyShortDecided(s)
    ensures OnlyShortDecided(Steps(c, s, actions))
  {
    hide Next, Invariant, OnlyShortDecided;
    if actions != [] {
      var earlier := actions[..|actions| - 1];
      StepsKeepShort(c, s, earlier);
      StepsKeepInvariant(c, s, earlier);
      StepKeepsShort(c, Steps(c, s, earlier), actions[|actions| - 1]);
    }
  }

  /** In no reachable state is a request of a longer design id decided, and no revision of such
      a design is ever stored. */
  lemma LongDesignsAreNeverDecided(c: Config, s: System)
    requires Reachable(c, s)
    ensures forall request :: IsDecided(s.store.approvals, request) ==> |request.designId| <= 23
    ensures forall r :: r in s.store.revisions ==> |r.designId| <= 23
  {
    hide Next, Invariant;
    var actions :| s == Run(c, actions);
    InitialIsInvariant();
    StepsKeepShort(c, INITIAL, actions);
    forall r | r in s.store.revisions
      ensures |r.designId| <= 23
    {
      EveryRevisionIsAuthorized(c, s, r);
      assert IsDecided(s.store.approvals, Select(s.store.journal, CreationOf(r.revisionId))[0].request);
    }
  }

  /** Nothing stops the first phase: in every reachable state, every commit derived for a longer
      design id is accepted for decision, and waits for ever. */
  lemma LongDesignsCanBePrepared(c: Config, s: System, pid: nat, subject: string, inputs: Inputs, evicted: set<RequestId>)
    requires Reachable(c, s) && pid in s.processes && |subject| > 23
    requires Derive(c.packages, s.store.revisions, subject, inputs).Ok?
    ensures var d := Derive(c.packages, s.store.revisions, subject, inputs).value;
            PrepareUnit(s.store, s.processes[pid], d, evicted).result == Ok(d.requestId)
  {
    ReachableIsInvariant(c, s);
    LongDesignsAreNeverDecided(c, s);
    DerivationIsCoherent(c.packages, s.store.revisions, subject, inputs);
    hide Derive, Reachable, StoreInvariant, SoundBudget, DescribesHead;
    var request := Derive(c.packages, s.store.revisions, subject, inputs).value.requestId;
    assert !IsDecided(s.store.approvals, request);
    ApprovalsStayWellFormed(s.store);
  }

  lemma ApprovalsStayWellFormed(store: Store)
    requires StoreInvariant(store)
    ensures ApprovalsWellFormed(store.approvals)
  {
  }

  // ----- What the journal and the head settle -----

  lemma {:induction false} PreparedIsDigested(journal: seq<Event>, request: RequestId)
    requires PreparationsDigested(journal)
    ensures PreparedCommit(journal, request).Some? ==> PreparedCommit(journal, request) == Some(PayloadOf(request))
    ensures forall i :: 0 <= i < |journal| && journal[i].PreparedEvent? && journal[i].request == request ==> PreparedCommit(journal, request).Some?
  {
    if journal != [] {
      PreparedIsDigested(journal[..|journal| - 1], request);
    }
  }

  /** A commit derived from the present head is undecided, or it was rejected. */
  lemma PresentCommitIsUndecidedOrRejected(store: Store, policy: Policy, d: Derived)
    requires StoreInvariant(store) && NeverAhead(policy, store.approvals) && Coherent(d) && DescribesHead(d, store.revisions)
    ensures Undecided(store, policy, d.requestId) <==>
            !(d.requestId in store.approvals && store.approvals[d.requestId].status == Rejected)
  {
    DescribedHeadContinues(d, store.revisions);
    if IsDecided(store.approvals, d.requestId) && store.approvals[d.requestId].status == Approved {
      ApprovedTakesItsPlace(store, d.requestId);
    }
  }

  // ----- Honouring an approval later -----

  lemma {:induction false} PreparationsAreKept(journal: seq<Event>, journal': seq<Event>, request: RequestId)
    requires journal <= journal' && PreparedCommit(journal, request).Some?
    ensures PreparedCommit(journal', request) == PreparedCommit(journal, request)
  {
    if |journal| < |journal'| {
      PreparationsAreKept(journal, journal'[..|journal'| - 1], request);
    } else {
      assert journal == journal';
    }
  }

  /** The commit was derived in the earlier state; by the later one its report is published and
      its preparation journalled, however late. */
  predicate PreparedFrom(pk: Packages, before: System, s: System, subject: string, inputs: Inputs) {
    var derived := Derive(pk, before.store.revisions, subject, inputs);
    && derived.Ok?
    && derived.value.artifact.content in s.artifacts
    && PreparedCommit(s.store.journal, derived.value.requestId).Some?
    && ReferencesReadable(derived.value)
  }

  /** Stale approvals, exactly. However much later, and in whichever process, the second phase of
      a prepared commit runs, it reproduces the reviewed commit field for field if nothing was
      stored for the design since the commit was derived, and is refused if anything was, even
      before the preparation itself was journalled. */
  lemma ApprovalIsHonouredIffHeadUnmoved(c: Config, before: System, s: System, pid: nat, subject: string, inputs: Inputs)
    requires Later(c, before, s) && Sound(c.packages) && pid in s.processes
    requires IsIdentifier(subject, 23) && IsIdentifier(inputs.domain, MAX_IDENTIFIER_LENGTH) && inputs.domain in c.packages.domains
    requires PreparedFrom(c.packages, before, s, subject, inputs)
    requires Undecided(s.store, s.processes[pid].policy, Derive(c.packages, before.store.revisions, subject, inputs).value.requestId)
    ensures var d := Derive(c.packages, before.store.revisions, subject, inputs).value;
            BeginDecision(c.packages, s.store, s.artifacts, s.processes[pid].policy, d.requestId, Some(d.state), Some(d.action)) ==
            if History(s.store.revisions, subject) == History(before.store.revisions, subject) then Ok(d) else Err(DigestMismatch)
  {
    LaterEvolves(c, before, s);
    hide Derive, Rederive, ReferencesReadable, Sound, Undecided, Next;
    hide PreparedCommit, Chained, DescribesHead, BeginDecision, Later;
    LaterDecision(c.packages, before.store, s.store, s.artifacts, s.processes[pid].policy, subject, inputs);
  }

  lemma LaterDecision(pk: Packages, before: Store, after: Store, artifacts: set<string>, policy: Policy, subject: string, inputs: Inputs)
    requires Sound(pk) && StoreInvariant(before) && StoreInvariant(after) && Evolves(before, after)
    requires IsIdentifier(subject, MAX_DESIGN_ID_LENGTH) && IsIdentifier(inputs.domain, MAX_IDENTIFIER_LENGTH) && inputs.domain in pk.domains
    requires Derive(pk, before.revisions, subject, inputs).Ok? && |subject| <= 23
    requires var d := Derive(pk, before.revisions, subject, inputs).value;
             && d.artifact.content in artifacts && PreparedCommit(after.journal, d.requestId).Some?
             && ReferencesReadable(d) && Undecided(after, policy, d.requestId)
    ensures var d := Derive(pk, before.revisions, subject, inputs).value;
            BeginDecision(pk, after, artifacts, policy, d.requestId, Some(d.state), Some(d.action)) ==
            if History(after.revisions, subject) == History(before.revisions, subject) then Ok(d) else Err(DigestMismatch)
  {
    hide Derive, Rederive, ReferencesReadable, Sound, IsIdentifier;
    hide Undecided, PreparedPayload, PreparedCommit, LatestForDesign, DescribesHead;
    hide DecisionsRecorded, OutcomesRecorded, CreationsRecorded, ConflictsAreReal;
    hide Chained, NeverAhead, PreparationsDigested, History;
    var d := Derive(pk, before.revisions, subject, inputs).value;
    PreparedIsDigested(after.journal, d.requestId);
    DerivationIsCoherent(pk, before.revisions, subject, inputs);
    CoherentPayload(d);
    RederivationClosure(pk, before.revisions, after.revisions, artifacts, subject, inputs);
    HeadUnchangedIffNothingStored(before.revisions, after.revisions, subject);
  }

  lemma CoherentPayload(d: Derived)
    requires Coherent(d)
    ensures PreparedPayload(d) == PayloadOf(d.requestId)
  {
  }

  /** The recorded budget can be read back: every live reservation number has at most 244
      digits. */
  predicate ReadableRecord(store: Store) {
    store.savedBudget.Some? ==> LedgerImports.ShortIds(store.savedBudget.value.reservations)
  }

  /** A launch, exactly: over any store, it is refused if there is history without one of the two
      records, or if the recorded budget cannot be read back; otherwise it takes up what is
      recorded, and the defaults for what is not. */
  lemma RestartIsExact(store: Store, defaults: Process)
    requires store.savedBudget.Some? ==> LedgerRuns.WellFormed(store.savedBudget.value) && store.savedBudget.value.budget.Valid()
    ensures Restart(store, defaults) ==
            if (store.journal != [] && (store.savedPolicy.None? || store.savedBudget.None?)) || !ReadableRecord(store) then Err(CorruptKernelState)
            else Ok(Process(if store.savedPolicy.Some? then store.savedPolicy.value else defaults.policy,
                            if store.savedBudget.Some? then store.savedBudget.value else defaults.budget))
  {
    if store.savedBudget.Some? {
      LedgerImports.ExportThenImport(store.savedBudget.value, defaults.budget);
    }
    hide Import;
  }

  /** A reachable store stops a launch exactly when its record holds an identifier too long to
      read, and none does while fewer than 10^244 reservations have been numbered. */
  lemma LaunchSucceeds(c: Config, s: System)
    requires Reachable(c, s)
    ensures Restart(s.store, Defaults(c)).Ok? <==> ReadableRecord(s.store)
    ensures (s.store.savedBudget.Some? ==> s.store.savedBudget.value.next <= PowerOfTen(244)) ==> ReadableRecord(s.store)
  {
    hide PowerOfTen;
    ReachableIsInvariant(c, s);
    if s.store.savedBudget.Some? {
      LedgerImports.ExportThenImport(s.store.savedBudget.value, Fresh(c.limits));
      if s.store.savedBudget.value.next <= PowerOfTen(244) {
        LedgerImports.IssuedIdsAreShort(s.store.savedBudget.value);
      }
    }
  }
}
