/** The composition root as the source writes it: an object that updates the shared database,
    the artifact store, its policy engine and its budget ledger statement by statement, under
    a unit of work that rolls the database and the policy back together. Each method is proved
    to do what `Protocol` says the operation does. */
module Application {
  import opened Wrappers
  import opened Identifiers
  import opened Ledgers
  import opened Revisions
  import opened Protocol
  import ProtocolProgress

  class Database {
    var store: Store

    constructor ()
      ensures store == EMPTY_STORE
    {
      store := EMPTY_STORE;
    }

    /** Inserts an approval, or updates one that is still pending; a decided row only accepts
        itself again. */
    method SaveApproval(request: RequestId, row: Approval) returns (saved: bool)
      modifies this
      ensures saved <==> (request in old(store).approvals ==> old(store).approvals[request].status == Pending || old(store).approvals[request] == row)
      ensures store == if saved then old(store).(approvals := old(store).approvals[request := row]) else old(store)
    {
      if request in store.approvals && store.approvals[request].status != Pending && store.approvals[request] != row {
        return false;
      }
      store := store.(approvals := store.approvals[request := row]);
      return true;
    }

    method Append(e: Event)
      modifies this
      ensures store == old(store).(journal := old(store).journal + [e])
    {
      store := store.(journal := store.journal + [e]);
    }

    /** `commit_revision` inside the caller's transaction: the head is read, compared and
        extended, or nothing is written. */
    method CommitRevision(r: Revision, expectedHead: Option<string>) returns (outcome: Insertion)
      modifies this
      ensures outcome == CompareAndSwap(old(store).revisions, r, expectedHead)
      ensures store == if outcome.Inserted? then old(store).(revisions := outcome.rows) else old(store)
    {
      var head := LatestForDesign(store.revisions, r.designId);
      if IdOf(head) != expectedHead {
        return LostRace;
      }
      var sequence := 0;
      if head.Some? {
        sequence := head.value.sequence + 1;
      }
      if r.sequence != sequence {
        return LostRace;
      }
      if GetRevision(store.revisions, r.revisionId).Some? {
        return KeyTaken;
      }
      store := store.(revisions := store.revisions + [r]);
      return Inserted(store.revisions);
    }
  }

  class ArtifactStore {
    var objects: set<string>

    constructor ()
      ensures objects == {}
    {
      objects := {};
    }
  }

  class KalaApplication {
    const packages: Packages
    const database: Database
    const artifacts: ArtifactStore
    const budget: BudgetLedger
    var policy: Policy

    constructor (packages: Packages, database: Database, artifacts: ArtifactStore, budget: BudgetLedger, policy: Policy)
      ensures this.packages == packages && this.database == database && this.artifacts == artifacts && this.budget == budget
      ensures this.policy == policy
    {
      this.packages, this.database, this.artifacts, this.budget, this.policy := packages, database, artifacts, budget, policy;
    }

    function AsProcess(): Process
      reads this, budget
    {
      Process(policy, budget.State())
    }

    /** Restores the recorded policy and budget into this process, or refuses to launch. */
    method RestoreKernelState() returns (r: Result<(), Error>)
      modifies this, budget
      ensures var restored := Restart(database.store, old(AsProcess()));
              && (r.Ok? <==> restored.Ok?)
              && (r.Ok? ==> AsProcess() == restored.value)
              && (r.Err? ==> r.error == CorruptKernelState)
    {
      var history := database.store.journal != [];
      if database.store.savedPolicy.None? {
        if history {
          return Err(CorruptKernelState);
        }
      } else {
        policy := database.store.savedPolicy.value;
      }
      if database.store.savedBudget.None? {
        if history {
          return Err(CorruptKernelState);
        }
      } else {
        var imported := budget.ImportState(Export(database.store.savedBudget.value));
        if imported.Err? {
          return Err(CorruptKernelState);
        }
      }
      return Ok(());
    }

    /** The publishing derivation: the report bytes are stored, then charged, and only then is
        the specification checked. */
    method PublishDerivation(subject: string, inputs: Inputs) returns (r: Result<Derived, Error>)
      modifies artifacts, budget
      ensures Publication(r, artifacts.objects, budget.State()) ==
              PublishCommit(packages, database.store.revisions, old(artifacts.objects), old(budget.State()), subject, inputs)
    {
      var draft := DraftCommit(packages, database.store.revisions, subject, inputs);
      if draft.Err? {
        return Err(draft.error);
      }
      artifacts.objects := artifacts.objects + {draft.value.report};
      var charged := budget.ConsumeCharge(ArtifactCharge(draft.value.report));
      if charged.Err? {
        return Err(BudgetExhausted);
      }
      return FinishCommit(packages, subject, inputs, draft.value);
    }

    /** The two kernel records that end every unit of work. `fault` numbers the write that the
        database fails, counting the writes of the unit. */
    method PersistKernelState(fault: Option<nat>, written: nat) returns (ok: bool)
      modifies database
      ensures fault.None? ==> ok
      ensures ok ==> database.store == Persisted(old(database.store), policy, budget.State())
    {
      if fault == Some(written) {
        return false;
      }
      database.store := database.store.(savedPolicy := Some(policy));
      if fault == Some(written + 1) {
        return false;
      }
      database.store := database.store.(savedBudget := Some(budget.State()));
      return true;
    }

    /** The body of the preparation's unit, before commit or rollback. */
    method PrepareBody(d: Derived, evicted: set<RequestId>, fault: Option<nat>) returns (r: Result<RequestId, Error>)
      modifies this`policy, database
      ensures var u := PrepareUnit(old(database.store), old(AsProcess()), d, evicted);
              if r.Ok? then u == Unit(database.store, policy, r) else r == u.result || (fault.Some? && r == Err(StorageFailure))
    {
      var request := d.requestId;
      if !Undecided(database.store, policy, request) {
        return Err(NotPending);
      }
      policy := RequestApproval(policy, request, evicted);
      if policy.status[request] != Pending {
        return Err(NotPending);
      }
      if fault == Some(0) {
        return Err(StorageFailure);
      }
      var saved := database.SaveApproval(request, Approval(Pending, None));
      assert saved;
      if fault == Some(1) {
        return Err(StorageFailure);
      }
      database.Append(PreparedEvent(request, PreparedPayload(d)));
      var recorded := PersistKernelState(fault, 2);
      if !recorded {
        return Err(StorageFailure);
      }
      return Ok(request);
    }

    /** A unit of work is all or nothing: whatever write fails, the database is rolled back and
        the policy engine is put back as the unit found it. */
    method RunPrepareUnit(d: Derived, evicted: set<RequestId>, fault: Option<nat>) returns (r: Result<RequestId, Error>)
      modifies this`policy, database
      ensures Unit(database.store, policy, r) == PrepareUnit(old(database.store), old(AsProcess()), d, evicted)
              || (fault.Some? && r == Err(StorageFailure) && database.store == old(database.store) && policy == old(policy))
    {
      var exported, begun := policy, database.store;
      r := PrepareBody(d, evicted, fault);
      if r.Err? {
        database.store := begun;
        policy := exported;
      }
    }

    /** Writes the revision and its event, or journals the conflict; a lost race is returned,
        not raised, so that the decision is still committed. */
    method WriteRevision(d: Derived, actor: string, fault: Option<nat>) returns (r: Result<bool, Error>)
      modifies database
      ensures var swap := CompareAndSwap(old(database.store).revisions, d.ToRevision(), d.expectedHead);
              var conflict := ConflictedEvent(d.requestId, actor, d.expectedHead, IdOf(LatestForDesign(old(database.store).revisions, d.designId)));
              var created := CreatedEvent(d.requestId, actor, d.revisionId, d.ToProvenance());
              match r
              case Ok(true) => swap.Inserted? && database.store == old(database.store).(revisions := swap.rows, journal := old(database.store).journal + [created])
              case Ok(false) => swap.LostRace? && database.store == old(database.store).(journal := old(database.store).journal + [conflict])
              case Err(e) => e == StorageFailure && (swap.KeyTaken? || fault.Some?)
    {
      if fault == Some(2) {
        return Err(StorageFailure);
      }
      var outcome := database.CommitRevision(d.ToRevision(), d.expectedHead);
      if outcome.KeyTaken? || fault == Some(3) {
        return Err(StorageFailure);
      }
      if outcome.LostRace? {
        var actual := IdOf(LatestForDesign(database.store.revisions, d.designId));
        database.Append(ConflictedEvent(d.requestId, actor, d.expectedHead, actual));
        return Ok(false);
      }
      database.Append(CreatedEvent(d.requestId, actor, d.revisionId, d.ToProvenance()));
      return Ok(true);
    }

    /** The body of the decision's unit, before commit or rollback. */
    method DecideBody(d: Derived, verdict: Verdict, actor: string, evicted: set<RequestId>, fault: Option<nat>) returns (r: Result<Decided, Error>)
      modifies this`policy, database
      ensures var u := DecideUnit(old(database.store), old(AsProcess()), d, verdict, actor, evicted);
              if r.Ok? then u == Unit(database.store, policy, r) else r == u.result || (fault.Some? && r == Err(StorageFailure))
    {
      var request := d.requestId;
      if !Undecided(database.store, policy, request) {
        return Err(NotPending);
      }
      policy := RequestApproval(policy, request, evicted);
      if !(PRE_COMMIT_CAPABILITIES <= policy.granted) {
        return Err(DecisionDenied);
      }
      var status := if verdict == Approve then Approved else Rejected;
      policy := Resolve(policy, request, status);
      if fault == Some(0) {
        return Err(StorageFailure);
      }
      var saved := database.SaveApproval(request, Approval(status, Some(actor)));
      assert saved;
      assert database.store.approvals[request] == Approval(status, Some(actor));
      if fault == Some(1) {
        return Err(StorageFailure);
      }
      database.Append(DecidedEvent(request, status, actor));
      var decided := RejectionRecorded;
      if verdict == Approve {
        var written := WriteRevision(d, actor, fault);
        if written.Err? {
          return Err(StorageFailure);
        }
        decided := if written.value then Committed(d.ToRevision()) else RaceLost;
      } else {
        if fault == Some(2) {
          return Err(StorageFailure);
        }
        database.Append(RejectedEvent(request, actor));
      }
      var recorded := PersistKernelState(fault, 4);
      if !recorded {
        return Err(StorageFailure);
      }
      return Ok(decided);
    }

    method RunDecideUnit(d: Derived, verdict: Verdict, actor: string, evicted: set<RequestId>, fault: Option<nat>) returns (r: Result<Decided, Error>)
      modifies this`policy, database
      ensures Unit(database.store, policy, r) == DecideUnit(old(database.store), old(AsProcess()), d, verdict, actor, evicted)
              || (fault.Some? && r == Err(StorageFailure) && database.store == old(database.store) && policy == old(policy))
    {
      var exported, begun := policy, database.store;
      r := DecideBody(d, verdict, actor, evicted, fault);
      if r.Err? {
        database.store := begun;
        policy := exported;
      }
    }

    /** `create_design_revision`: the inputs are validated, then the commit is prepared and
        approved against the digests the caller reviewed, in one local call. */
    method CreateDesignRevision(subject: string, inputs: Inputs, reviewed: ProtocolProgress.Reviewed, actor: string, evicted: set<RequestId>)
        returns (r: Result<Decided, Error>)
      modifies this, database, artifacts, budget
      ensures ProtocolProgress.Creation(database.store, AsProcess(), artifacts.objects, r) ==
              ProtocolProgress.CreateRevision(packages, old(database.store), old(artifacts.objects), old(AsProcess()),
                                              subject, inputs, reviewed, actor, evicted)
    {
      var accepted := AcceptInputs(packages, subject, inputs);
      if accepted.Err? {
        return Err(accepted.error);
      }
      var derived := PublishDerivation(accepted.value.0, accepted.value.1);
      if derived.Err? {
        return Err(derived.error);
      }
      var prepared := RunPrepareUnit(derived.value, evicted, None);
      if prepared.Err? {
        return Err(prepared.error);
      }
      var named := RequireIdentifier(actor, MAX_IDENTIFIER_LENGTH);
      if named.None? {
        return Err(InvalidIdentifier);
      }
      var begun := BeginDecision(packages, database.store, artifacts.objects, policy, prepared.value, reviewed.state, reviewed.action);
      if begun.Err? {
        return Err(begun.error);
      }
      r := RunDecideUnit(begun.value, Approve, named.value, evicted, None);
    }
  }
}
