# Kala agent: revision commits, budgets, masking and contract checks

A Dafny model of four parts of the Kala agent, with proofs of what they promise.

**The two-phase revision commit.** A commit is derived from the head of a design, reduced to a
state digest and an action digest, journalled as a preparation, and decided once. At decision time
it is derived again from the head that exists then and written under a compare-and-swap. `Protocol`
states each half of each operation as a function on the shared store and one process, `Application`
is the same code statement by statement on mutable objects (with a database write that may fail
anywhere inside a unit of work, and the rollback), and `ProtocolRuns` lets any number of processes
interleave both halves with crashes, restarts, units that wait and fail, revoked capabilities and
other spending.
`ProtocolTheorems` and `ProtocolProgress` hold for every such run; `Derivation` and
`ProtocolOutcomes` say field by field what is derived, and what every unit and check comes to. Each
process has its own policy engine and its own ledger, so four modules say what sharing the store does
to them:
`ProtocolRecords` (recorded usage, by who starts and records when), `ProtocolAgreement` (which
decisions an engine has missed, step by step), `ProtocolTurns` (the same from the history alone) and
`ProtocolSolo` (one process at a time, with one thread).

**The budget ledger.** `Ledgers` models the operations on values and the mutable `BudgetLedger`
against them; `LedgerRuns` is about every interleaving of the calls of any number of clients, which
the ledger's lock makes atomic. `LedgerOutcomes` says field by field what each operation leaves and
which dimension a refusal names. `LedgerImports` is about state documents, `Charges` about keyword
charges, and `LedgerDurations` about how far recorded durations are from the time really charged.

**JSON paths and masking.** `Json` has documents, places and masking as a function; `DocumentHeap`
and `HttpMaskingInPlace` have the maskers as they run, rewriting nested containers in place;
`MaskLaws`, `JsonPaths`, `Declarations` and `HttpMasking` have the laws; `HostMasking` records a body
from end to end.

**Contract checks.** `Workflow` (worklist reachability), `Construction` (construction scripts),
`ArtifactPaths` and `PathSpellings` (the path of an artifact URI, and what its escapes stand for).

## Assumptions

- A digest is the record of the fields it covers, so equal digests mean equal fields; the
  16-character prefixes in request identifiers are collision-free as well.
- A domain package's parameter validation accepts its own canonical output unchanged, and its default
  summary is acceptable summary text (`Revisions.Sound`).
- Durations and costs are exact reals; a stored duration is a whole number of microseconds.
- The journal is appended to and read in order; the artifact store never deletes.

## What the proofs found

- A request identifier is 41 characters longer than its design id, and a decision accepts 64. A
  design id of more than 23 characters is therefore prepared (`LongDesignsCanBePrepared`) and never
  decided, in any reachable state (`LongDesignsAreNeverDecided`). Otherwise one uninterrupted call
  succeeds exactly under `CanCreate`, checks a caller can make before it, and a commit that is
  prepared and approved with anything in between is written exactly if nothing was stored for its
  design meanwhile (`ApprovalAppendsIffHeadUnmoved`, `PrepareThenApproveAppends`).
- Recorded usage can decrease when several processes share the store. It never does, whatever is
  spent, exactly if every process that records started, or last recorded itself, after the last
  record by any other (`UsageIsKeptIffUpToDate`); and exactly such processes have seen all that is
  recorded (`MemoryCoversRecordIffCurrent`).
- A policy engine can hold a request pending that the store holds a decision for. `MissedStep` and
  `SavedMissedStep` say for every step how the missed requests change: a decision by another process
  adds a tracked request, a start takes over what the recorded policy missed, an eviction forgets.
  `DecisionElsewhereIsMissed` is a run of two processes in which it happens. Within one process, a
  unit that waited while another thread decided a request, and then fails, makes the engine hold that
  request pending again exactly if it was tracked when the unit noted the policy
  (`RollbackLosesDecisionIffTracked`). For every run, who agrees is a matter of its history:
  `AgreesIffNothingDecidedElsewhere`.
- A charge given both as a usage with a duration and as a `duration_seconds` keyword rounds twice:
  0.6 and 0.6 microseconds are recorded as 2 (`TwoRoundingsStray`). Half a microsecond per rounded
  duration is what always holds (`RecordedIsNear`); half a microsecond per charge holds exactly for
  charges that do not round twice in one direction by more than that (`HalfIffNotStray`).
- What the ledger reports as remaining can be more than it accepts, when the duration limit is half a
  microsecond or more past a whole one (`RemainingIsSpendable`). `import_state` does not look at the
  limits: `ImportIsExact` says which documents it accepts and which of those are within them.
- `_mask_at` reads an index as a number and `_covers` compares it as text: `[03]` replaces item 3 and
  does not cover it. `HitIsCoveredIffCanonical` gives the exact condition.
- A host-dependent path counts as absent exactly if it names nothing, or only places below those that
  an earlier path of the list replaced (`MaskEach`).
- A placeholder under a key that is not an identifier can go unseen by the generator, and a body with
  no other is then marked as compared exactly (`OddKeysHidePlaceholders`, `BodyContract`). A place is
  seen for what it holds in every document exactly if all its keys are identifiers (`SeenIffNamed`).

## Model

| member | source | states |
|---|---|---|
| ProtocolTheorems.HistoriesAreUnforked | src/kala_agent/application.py:2112-2148 | in every reachable state the stored revisions of a design are the chain r0, r1, r2, ... with derived identifiers, each parent the revision before; every row is in its design's chain, and the head is its last |
| ProtocolTheorems.EveryRevisionIsAuthorized | src/kala_agent/application.py:2465-2521 | every stored revision has exactly one creation event; it names a request decided exactly once, as approved, by that actor, whose state digest was computed from the head the revision extends; its provenance reads back |
| ProtocolTheorems.EveryRevisionReadsBack | src/kala_agent/application.py:1581-1588 | in every reachable state a stored revision is read back, with the provenance that its authorisation covered, if and only if its identifier passes validation |
| ProtocolTheorems.OnlyTheWinnerWrites | src/kala_agent/application.py:1405-1494 | an undecided request has no outcome, a decided one exactly one; rejected requests and lost races write no revision, and a race is lost only to a revision really stored |
| ProtocolTheorems.AtMostOneRevisionPerRequest | src/kala_agent/application.py:1314-1316 | two stored revisions written under the same request are the same revision |
| ProtocolTheorems.DecisionsAreFinal | src/kala_agent/persistence/repositories.py:284-318 | over any run a stored decision never changes, and rows and events are only appended |
| ProtocolTheorems.DecidedRequestsAreInert | src/kala_agent/application.py:2394-2405 | once a request is decided, in every later state of the run every further half of an operation on it, in any process, leaves the store as it is, and no decision on it starts |
| ProtocolTheorems.DecidedRequestsAreRefused | src/kala_agent/application.py:2394-2405 | a request with a stored decision is refused by both units and by the start of a decision, whatever the process tracks |
| ProtocolTheorems.PreparingAgainRepeats | src/kala_agent/application.py:1314-1316 | while nothing is stored for the design and the request is undecided, preparing the same inputs again in any process is refused exactly if its budget does not afford the report; otherwise it yields the same request and leaves the first preparation the one a decision finds |
| ProtocolProgress.CreationIsAtomicAppend | src/kala_agent/application.py:1245-1290 | from any reachable state and for any inputs, actor and reviewed digests, the call succeeds if and only if the caller's checks hold, and then appends exactly the revision derived from the head; otherwise revisions are untouched |
| ProtocolProgress.RefusalIsExplained | src/kala_agent/application.py:1262-1290 | a refusal of the call names a guard that failed: the derivation, the budget, an earlier rejection, the identifiers, the reviewed digests or the capabilities |
| ProtocolProgress.CreationIsFourActions | src/kala_agent/application.py:1274-1290 | the state after the call is that after StartPrepare, FinishPrepare, StartDecision and FinishDecision, in this order and with nothing in between, for the request that was derived; or after the first alone, if nothing could be derived or paid for |
| ProtocolProgress.ApprovalAppendsIffHeadUnmoved | src/kala_agent/application.py:1421-1500 | whatever happened in any process since the commit was derived, the system after its approval is the one before with exactly its revision, approval, events, kernel records and policy written if nothing was stored for the design, and with the conflict instead of the revision if anything was; a request that is not open or a missing capability leaves no trace |
| ProtocolProgress.RejectionWritesNoRevision | src/kala_agent/application.py:1429-1490 | for every rejection in flight, the system after it has the request rejected by the actor, a decision and a rejection journalled, the kernel records and no new revision; a request that is not open or a missing capability leaves no trace |
| ProtocolProgress.PreparationOpens | src/kala_agent/application.py:1334-1365 | for every preparation in flight, the system after it has the request pending without an actor, what was derived journalled, the kernel records and nothing else; a decided request leaves no trace |
| ProtocolOutcomes.RejectionUnit | src/kala_agent/application.py:1429-1490 | the unit of a rejection: whole store, policy and result, or which refusal |
| ProtocolOutcomes.ApprovalUnit | src/kala_agent/application.py:1421-1490 | the unit of an approval: whole store, policy and result by what the swap says, or which refusal |
| ProtocolOutcomes.SwapIsExact | src/kala_agent/persistence/repositories.py:143-191 | a row is inserted exactly if the expected head is the last of its design's history, its sequence the length of it, and its identifier free; otherwise which of the two refusals |
| ProtocolOutcomes.DecisionIsRefusedEarly | src/kala_agent/application.py:1399-1416 | a decision of a long design id, of a request never prepared, and of a decided one is refused as such, and one that begins was made against the digests derived |
| ProtocolOutcomes.RederivedIsChecked | src/kala_agent/application.py:2330-2375 | a re-derivation that succeeds has validated every recorded field, found the report stored and the request unchanged |
| ProtocolOutcomes.AcceptedInputsAreTheCallers | src/kala_agent/application.py:1319-1321 | accepts exactly valid identifiers of a known domain and a workflow that names no kernel record, normalises these and passes on everything else as given |
| ProtocolOutcomes.PublicationEffects | src/kala_agent/application.py:2147-2158 | what cannot be derived leaves no trace; otherwise the report is stored, its bytes and a newline are charged if they fit, and nothing else changes, whatever the summary |
| Derivation.DerivationFollowsInputs | src/kala_agent/application.py:2112-2245 | every field of a derived commit comes from the caller's inputs or from the head: the parsed parameters given, their report, the summary given or the default, the parents given or the head's provenance, the transformations given and the evaluation, the names and the place in the history; the digests cover them all |
| Derivation.DerivationIsExact | src/kala_agent/application.py:2112-2148 | a derivation succeeds exactly for valid references, parameters and summary on a parent that is the head, and a refusal names what is wrong |
| ProtocolProgress.DecisionBeginsIffHeadUnmoved | src/kala_agent/application.py:1399-1416 | the step that starts a decision puts the derived commit in flight if nothing was stored since it was derived and the actor is valid, and changes nothing otherwise |
| ProtocolProgress.PreparationLasts | src/kala_agent/application.py:1317-1365 | what a completed preparation published and journalled is found in every later state of the run |
| ProtocolProgress.PrepareThenApproveAppends | src/kala_agent/application.py:1262-1290 | a preparation and an approval, in any two processes and with any steps in between, append exactly the prepared revision if nothing was stored for the design from the start of the one to the end of the other |
| ProtocolTheorems.ApprovalIsHonouredIffHeadUnmoved | src/kala_agent/application.py:1387-1416 | however much later and in whichever process it runs, a decision re-derives the reviewed commit field for field if nothing was stored for the design since the commit was derived, and is refused as stale if anything was, even before its preparation was journalled |
| ProtocolTheorems.LongDesignsCannotBeDecided | src/kala_agent/application.py:1399 | a request is accepted for decision if and only if its design id has at most 23 characters |
| ProtocolTheorems.LongDesignsAreNeverDecided | src/kala_agent/application.py:1399 | in no reachable state is a request of a design id of more than 23 characters decided, and no revision of such a design is stored |
| ProtocolTheorems.LongDesignsCanBePrepared | src/kala_agent/application.py:1334-1365 | in every reachable state a derived commit of a longer design id is accepted for decision all the same |
| ProtocolTheorems.PresentCommitIsUndecidedOrRejected | src/kala_agent/application.py:1310-1316 | a commit derived from the present head is open, unless the very same commit was rejected |
| ProtocolProgress.ApprovalOfPresentCommit | src/kala_agent/application.py:1421-1478 | approving a commit derived from the present head appends exactly its revision, or is denied when a capability was revoked |
| ProtocolTheorems.LaunchSucceeds | src/kala_agent/application.py:2572-2608 | a reachable store stops a launch exactly if its record holds a reservation identifier of more than 256 characters, and none does while fewer than 10^244 have been numbered |
| ProtocolTheorems.RestartIsExact | src/kala_agent/application.py:2591-2608 | over any store, a launch is refused exactly if there is history without one of the records or the budget record is unreadable; otherwise it takes up what is recorded and defaults for what is not |
| Rederivation.RederivationClosure | src/kala_agent/application.py:2330-2375 | re-deriving a journalled preparation gives the original derivation field for field when the head is unchanged and is refused as stale when it moved, also for a first revision whose recorded parent of none resolves to the new head |
| Rederivation.ShortDesignsStayReadable | src/kala_agent/application.py:2134-2139 | for every design id short enough to be decided, the recorded parents and parent revision pass validation again |
| Revisions.HistoryIsUnforked | src/kala_agent/application.py:2144-2148 | in a table grown only by continuing rows, position k of a design's history is revision rk with parent r(k-1) |
| Revisions.LatestIsLastOfHistory | src/kala_agent/persistence/repositories.py:223-236 | the row with the greatest sequence of a design is the last of its history |
| Revisions.LookupFindsHistory | src/kala_agent/persistence/repositories.py:193-200 | looking up revision k of a design finds position k of its history, and nothing when there is none |
| Revisions.HeadUnchangedIffNothingStored | src/kala_agent/application.py:2112-2113 | a later table has the same head for a design if and only if nothing was stored for it, and equal head identifiers mean equal heads |
| Revisions.DescribedHeadContinues | src/kala_agent/persistence/repositories.py:165-189 | a commit whose state digest describes the present head passes the head comparison and the primary key, and continues the chain |
| ProtocolInvariant.PrepareKeepsStore | src/kala_agent/application.py:1334-1365 | the preparation's unit keeps every record of revisions, decisions and outcomes |
| ProtocolInvariant.DecideKeepsStore | src/kala_agent/application.py:1421-1490 | the decision's unit keeps every record, and never fails on the primary key |
| ProtocolRuns.StepKeepsInvariant | src/kala_agent/application.py:2523-2545 | every step of every process, crash, restart and rollback included, keeps the invariant; rows and events only grow and decisions stay |
| ProtocolRuns.LaterEvolves | src/kala_agent/application.py:2523-2545 | whatever happens between two states of a run, revisions and events are only appended and decisions stay |
| ProtocolSolo.AloneStaysInStep | src/kala_agent/application.py:2523-2550 | one process at a time, with one thread: after every step the policy engine agrees with the approval store, its record is that of the last committed unit, and recorded usage is at most the usage in memory |
| ProtocolSolo.AloneKeepsUsage | src/kala_agent/application.py:2547-2550 | one process at a time, with one thread: recorded usage never decreases |
| ProtocolSolo.RestartTakesLastRecord | src/kala_agent/application.py:2572-2608 | whoever else uses the store, a process that crashes at any point and starts again takes up exactly the recorded policy and budget, and starts exactly if the record is readable |
| ProtocolSolo.CrashAndRestart | src/kala_agent/application.py:2572-2608 | one process at a time, with one thread: after a crash at any point the restart succeeds while fewer than 10^244 reservations have been numbered, tracks the same requests with the same statuses, and has the capabilities and usage of the last committed unit |
| ProtocolRecords.UsageIsKeptIffUpToDate | src/kala_agent/application.py:2547-2550 | under limits that admit any charge at all, and given who starts, records and ends in which order: recorded usage never decreases in any run of that history if and only if every recorder started or last recorded itself after the last record by another |
| ProtocolRecords.MemoryCoversRecordIffCurrent | src/kala_agent/application.py:2547-2550 | under such limits, a live process has seen the recorded usage in every run of a history if and only if it started or last recorded after the last record by another |
| ProtocolRecords.UpToDateRunKeepsUsage | src/kala_agent/application.py:2523-2550 | recorded usage never decreases between any two states of a run whose recorders are up to date |
| ProtocolRecords.HistoriesArePossible | src/kala_agent/application.py:2523-2550 | the history of every run is one that the two exact conditions speak of |
| ProtocolAgreement.MissedStep | src/kala_agent/application.py:2523-2545 | how every step changes the decisions an engine has missed: a start takes over the record's, its own unit drops what it evicts or, ending without effect, puts back its note's, another's decision adds a tracked request, nothing else matters |
| ProtocolAgreement.SavedMissedStep | src/kala_agent/application.py:2547-2550 | the decisions the recorded policy has missed change only when a process records, and are then that process's |
| ProtocolAgreement.AgreementIsMissingNothing | src/kala_agent/application.py:2394-2405 | in every reachable state an engine agrees with the store exactly if it has missed no decision |
| ProtocolAgreement.StartedAgreesIffRecordDoes | src/kala_agent/application.py:2591-2608 | a process starts in agreement with the store exactly if the recorded policy agrees with it |
| ProtocolAgreement.ForeignDecisionDisagreesIffTracked | src/kala_agent/application.py:2394-2405 | after a decision by another process an engine agrees exactly if it did and does not track the request |
| ProtocolAgreement.DecisionElsewhereIsMissed | src/kala_agent/application.py:2523-2550 | a reachable state of two processes in which one holds a decided request pending |
| ProtocolAgreement.RollbackLosesDecisionIffTracked | src/kala_agent/application.py:2538-2545 | after another thread's committed decision, the failure of a waiting unit leaves the store and puts back the whole policy it noted, capabilities included; that policy then misses the decision exactly if it tracked the request |
| ProtocolTurns.AgreesIffNothingDecidedElsewhere | src/kala_agent/application.py:2394-2405 | after every run, the policy of a process, of the record or of a waiting unit agrees with the approval store if and only if no request it came to track, wherever it was then held, was decided afterwards by an engine that did not hold it and has not been evicted since |
| ProtocolTurns.RunIsTold | src/kala_agent/application.py:2523-2550 | what every policy tracks and has missed after a run follows from who started, recorded, began, rolled back, prepared, decided and evicted, in order |
| ProtocolSolo.TwoProcessesLoseUsage | src/kala_agent/application.py:1934-1944 | a run of two processes in which recorded usage decreases, for every nonzero charge |
| Application.KalaApplication.RunPrepareUnit | src/kala_agent/application.py:1334-1365 | with a failing write anywhere inside, the unit has its whole effect or none, in the database and in the policy engine |
| Application.KalaApplication.RunDecideUnit | src/kala_agent/application.py:1421-1490 | the same for the decision's unit: approval, journal, revision, kernel records and policy together or not at all |
| Application.KalaApplication.WriteRevision | src/kala_agent/application.py:2465-2521 | writes the revision and its event, or journals the conflict with the actual head and returns it |
| Application.KalaApplication.PublishDerivation | src/kala_agent/application.py:2150-2158 | the report is stored, then charged, then the summary checked: a late refusal keeps the first two |
| Application.KalaApplication.RestoreKernelState | src/kala_agent/application.py:2591-2608 | restores the recorded policy and budget, or refuses to launch over history without a record |
| Application.KalaApplication.CreateDesignRevision | src/kala_agent/application.py:1245-1290 | validates the inputs, then is the preparation followed by its approval, by a valid actor, against the reviewed digests |
| Application.Database.CommitRevision | src/kala_agent/persistence/repositories.py:143-191 | compare-and-swap append: one row is added, or nothing is written |
| Application.Database.SaveApproval | src/kala_agent/persistence/repositories.py:284-318 | a pending approval may be updated, a decided one only rewritten with itself |
| LedgerRuns.ConservationAndSafety | src/kala_agent/kernel/budget.py:497-596 | for every interleaving on a fresh ledger: usage is the sum of the accepted charges, reserved the sum of the outstanding reservations, granted equals settled plus reserved, and all seven limits hold |
| LedgerRuns.CallKeepsInvariant | src/kala_agent/kernel/budget.py:557-596 | every call keeps the invariant and moves usage and reserved by exactly what it returned |
| LedgerRuns.AcceptanceIsExact | src/kala_agent/kernel/budget.py:696-758 | a charge or reservation is accepted if and only if it fits in all seven dimensions; a refusal changes nothing |
| LedgerRuns.ClosingIsExact | src/kala_agent/kernel/budget.py:566-596 | releasing succeeds exactly for a live reservation and never underflows; committing exactly when it also fits; a refusal changes nothing |
| LedgerRuns.ReservationIsGuarantee | src/kala_agent/kernel/budget.py:566-596 | whatever other clients did meanwhile, the holder can commit any amount up to what it reserved, or release it and give back exactly that |
| LedgerRuns.ReleasingAllRestoresZero | src/kala_agent/kernel/budget.py:587-596 | releasing every live reservation in any order leaves nothing reserved and usage as it was |
| LedgerRuns.IdentifiersAreNeverReissued | src/kala_agent/kernel/budget.py:680-685 | without imports no identifier is issued twice and the search for a free one succeeds at once |
| LedgerImports.ExportThenImport | src/kala_agent/kernel/budget.py:605-655 | importing an export restores the ledger exactly, into any ledger, if and only if every live identifier has at most 256 characters; otherwise nothing changes |
| LedgerImports.ReachedLedgersRoundTrip | src/kala_agent/kernel/budget.py:605-655 | export and import are inverse on every ledger reached from a fresh one by fewer than 10^244 granted reservations |
| LedgerImports.IssuedIdentifiersAreReadable | src/kala_agent/kernel/budget.py:429-440 | an issued identifier can be read back exactly if its number has at most 244 digits |
| LedgerImports.ImportIsAllOrNothing | src/kala_agent/kernel/budget.py:619-655 | a refused import changes nothing; an accepted one gives a well-formed ledger whatever the document held |
| LedgerImports.ImportIsExact | src/kala_agent/kernel/budget.py:619-655 | exactly which documents are accepted, and that an accepted one gives a ledger within its limits exactly if its usage and reservations together fit its budget |
| LedgerOutcomes.ImportedIsTheDocument | src/kala_agent/kernel/budget.py:619-655 | the ledger an accepted document gives, field by field, defaults included |
| LedgerImports.ExportedImportIsSafe | src/kala_agent/kernel/budget.py:605-655 | the export of a safe ledger, accepted anywhere, gives a safe ledger |
| LedgerImports.ImportMayExceedLimits | src/kala_agent/kernel/budget.py:619-655 | an accepted document can describe a ledger over its limit |
| LedgerRuns.RemainingIsSpendable | src/kala_agent/kernel/budget.py:238-275 | whatever is spent and reserved, spending what is reported as remaining is accepted if and only if the duration limit is less than half a microsecond past a whole one, or exactly half with an even number of whole microseconds left |
| LedgerRuns.RemainingMayOverstate | src/kala_agent/kernel/budget.py:238-275 | a well-formed, safe ledger whose reported remainder is refused |
| LedgerOutcomes.RemainingIsTheRest | src/kala_agent/kernel/budget.py:238-275 | in every dimension, what is reported is the limit less usage and reserved, or nothing |
| Ledgers.CheckIsExact | src/kala_agent/kernel/budget.py:696-758 | the check passes exactly when usage, the other reservations and the charge together are within every limit |
| LedgerOutcomes.RefusalNamesFirstExceeded | src/kala_agent/kernel/budget.py:696-758 | a refusal names the first dimension over its limit in the fixed order, with what is held and asked together, what was left and the limit; none is given exactly if every counter fits |
| LedgerOutcomes.ConsumeEffect | src/kala_agent/kernel/budget.py:497-502 | the whole ledger and the returned usage |
| LedgerOutcomes.ReserveEffect | src/kala_agent/kernel/budget.py:557-564 | the whole ledger and a reservation of exactly the charge under the first free number |
| LedgerOutcomes.CommitEffect | src/kala_agent/kernel/budget.py:566-585 | the whole ledger: exactly the reservation gone and what was used charged, or what was reserved if that is not said; otherwise which dimension does not fit |
| LedgerOutcomes.ReleaseEffect | src/kala_agent/kernel/budget.py:587-596 | the whole ledger: exactly the reservation gone and what it held given back |
| LedgerOutcomes.UnknownReservations | src/kala_agent/kernel/budget.py:687-694 | a reservation that is not live is refused as unknown, one with other amounts as a mismatch, and nothing changes |
| Ledgers.BudgetLedger.CheckLocked | src/kala_agent/kernel/budget.py:696-758 | the loop finds the first exceeded dimension and reports what was requested and what remained |
| Ledgers.BudgetLedger.ConsumeCharge | src/kala_agent/kernel/budget.py:497-502 | the whole new ledger state and result of consuming |
| Ledgers.BudgetLedger.ReleaseReservation | src/kala_agent/kernel/budget.py:587-596 | the whole new ledger state and result of releasing |
| Ledgers.BudgetLedger.ReserveCharge | src/kala_agent/kernel/budget.py:557-564 | the whole new ledger state and result of reserving |
| Ledgers.BudgetLedger.CommitReservation | src/kala_agent/kernel/budget.py:566-585 | the whole new ledger state and result of committing |
| Ledgers.BudgetLedger.ImportState | src/kala_agent/kernel/budget.py:619-655 | the whole new ledger state and result of importing |
| Ledgers.FreeNumber | src/kala_agent/kernel/budget.py:680-685 | the search ends with the first number whose identifier is not live |
| Ledgers.ReadReservationItems | src/kala_agent/kernel/budget.py:429-440 | reads the reservations in order, refuses unreadable and repeated identifiers, and totals what they hold |
| Charges.MergeUsage | src/kala_agent/kernel/budget.py:760-821 | accepts exactly known keywords with nonnegative numbers, whole for counters; every counter is then the base's plus what was given under its own keyword or alias, durations rounded once each, in any order; the first bad keyword decides the error |
| LedgerDurations.RecordedIsNear | src/kala_agent/kernel/budget.py:175-188 | after any interleaving of calls with raw charges on a fresh ledger, the recorded duration is within half a microsecond per rounded duration of the time really charged |
| LedgerDurations.HalfPerCharge | src/kala_agent/kernel/budget.py:175-188 | and within half a microsecond per accepted charge if no charge strays |
| LedgerDurations.HalfIffNotStray | src/kala_agent/kernel/budget.py:791-821 | a charge is within half a microsecond of its raw durations exactly if it does not round twice in one direction by more than that together |
| LedgerDurations.TwoRoundingsStray | src/kala_agent/kernel/budget.py:791-821 | a charge of 1.2 microseconds recorded as 2 |
| LedgerDurations.MergeRoundsEach | src/kala_agent/kernel/budget.py:760-821 | a merged charge records each of its raw durations, rounded by itself |
| Usage.RecordedDurationDrift | src/kala_agent/kernel/budget.py:94-99 | the whole microseconds of any list of durations are within half a microsecond each of their sum |
| Usage.GridDurationIsIdempotent | src/kala_agent/kernel/budget.py:75-99 | rounding a rounded duration changes nothing, and nonnegative stays nonnegative |
| Usage.StoredDurations | src/kala_agent/kernel/budget.py:94-99 | comparing, adding and subtracting stored seconds is comparing, adding and subtracting whole microseconds |
| Usage.SumWithout | src/kala_agent/kernel/budget.py:190-205 | taking one charge out of a total never underflows and leaves the total of the others |
| Json.MaskSemantics | backend/compat/generate_corpus.py:218-240 | the frame law: at every place of the masked document, a named place holds the placeholder, nothing is below it, and all else is as before |
| Json.NodesDetermineDocument | backend/compat/generate_corpus.py:218-240 | documents alike at every place are equal, so the frame law determines the masked document |
| MaskLaws.FoundIffHit | backend/compat/generate_corpus.py:243-245 | masking reports success exactly when something was replaced |
| MaskLaws.MaskIsIdempotent | backend/compat/generate_corpus.py:218-240 | masking a path twice is masking it once |
| MaskLaws.MasksCommute | backend/compat/generate_corpus.py:218-240 | masks of any two paths commute, a prefix and its extension included |
| MaskLaws.MaskingDependsOnTheSet | backend/compat/generate_corpus.py:218-245 | the masked document depends only on the set of paths |
| MaskLaws.HitIsCoveredIffCanonical | backend/compat/generate_corpus.py:390-401 | a replaced place is covered by its path if and only if the path writes no index with leading zeros |
| MaskLaws.CoveredPlaceIsHit | backend/compat/generate_corpus.py:390-401 | a covered place whose wildcards stand for list items is replaced |
| MaskLaws.MaskFrame | backend/compat/generate_corpus.py:218-245 | a canonical path changes only places at or below one it covers |
| MaskLaws.LeadingZeroIsNotCovered | backend/compat/generate_corpus.py:229-233 | a path that replaces a place it does not cover |
| DocumentHeap.MaskAt | backend/compat/generate_corpus.py:218-240 | rewriting the containers in place leaves exactly the masked document and reports exactly whether it found the path |
| DocumentHeap.MaskPath | backend/compat/generate_corpus.py:243-245 | the same from the path text: true exactly when some place is named |
| JsonPaths.SplitUndoesShow | backend/compat/generate_corpus.py:188-198 | splitting a printed path gives its segments back |
| JsonPaths.PathSegments | backend/compat/generate_corpus.py:188-198 | the scan collects every match from left to right |
| JsonPaths.FoldIsStable | backend/compat/generate_corpus.py:201-215 | folding a path twice is folding it once, and the folded text splits back |
| JsonPaths.FoldForgetsIndices | backend/compat/generate_corpus.py:201-215 | two paths have one shape key exactly if they differ only in which items they name |
| JsonPaths.LeafPaths | backend/compat/generate_corpus.py:248-259 | every leaf is listed exactly once, under its printed path |
| JsonPaths.LookupUndoesPrint | backend/compat/generate_corpus.py:372-387 | looking up the printed path of a place with identifier keys finds what is there |
| JsonPaths.LookUp | backend/compat/generate_corpus.py:372-387 | the cursor loop computes the looked-up value |
| Declarations.VolatileDeclarations | backend/compat/generate_corpus.py:329-369 | keeps the given declarations, covers every leaf seen to hold the placeholder, and adds nothing else |
| Declarations.BodyContract | backend/compat/generate_corpus.py:421-434 | structural bodies aside, a body is compared exactly if and only if nothing was given and no leaf of a container is seen to hold the placeholder; all given paths are declared, once each, and any other declaration is the path of a leaf so seen; with identifier keys every placeholder is covered |
| Declarations.SeenIffNamed | backend/compat/generate_corpus.py:359-363 | a place is seen for what it holds in every document with a leaf there if and only if all its keys are identifiers |
| Declarations.OddKeysHidePlaceholders | backend/compat/generate_corpus.py:359-363 | a container that holds a placeholder and has no leaf that is seen, and so is compared exactly |
| Declarations.OddKeysMayBeSeen | backend/compat/generate_corpus.py:359-363 | a placeholder under such a key that is seen, because its printed path names another |
| HostMasking.MaskEach | backend/compat/generate_corpus.py:292-294 | masks the paths in order, in place, and stops at exactly the first that names no place outside those strictly below what an earlier path replaced |
| HostMasking.RecordBody | backend/compat/generate_corpus.py:412-434 | a host-dependent body is recorded if and only if it is an object and all its paths are present, and is masked at exactly these; in every case the masked paths or captured fields and the extra paths are all declared, nothing else is but leaves seen to hold the placeholder, and the body is compared exactly if and only if there are neither |
| HostMasking.HitAfterMasks | backend/compat/generate_corpus.py:218-240 | after any masks a path names exactly the places it named before that do not lie strictly below a replaced one |
| HttpMasking.TwoMaskersAgree | backend/compat/corpuslib/http_cases.py:195-230 | on identifier names with at most one `[*]` after each, both maskers give the same document, and the sink gets the old value of each replaced place once, in order |
| HttpMasking.PartsMaskLikeSegments | backend/compat/corpuslib/http_cases.py:195-224 | a dotted path of any parts, bare stars and odd names included, masks exactly the places its expansion names |
| HttpMasking.SinkListsHits | backend/compat/corpuslib/http_cases.py:195-224 | and the sink gets the old value of each such place, in order |
| HttpMasking.HitPlacesAreTheHits | backend/compat/corpuslib/http_cases.py:209-224 | the replaced places, each exactly once |
| HttpMasking.MaskValuesSemantics | backend/compat/corpuslib/http_cases.py:233-249 | exactly the listed texts below the root are replaced |
| HttpMaskingInPlace.MaskSegments | backend/compat/corpuslib/http_cases.py:195-224 | in place: the masked document, and the sink extended by the text of each replaced value in order |
| HttpMaskingInPlace.MaskByPath | backend/compat/corpuslib/http_cases.py:227-230 | the same from the dotted path |
| HttpMaskingInPlace.MaskByValue | backend/compat/corpuslib/http_cases.py:233-249 | in place: every listed text below the root is replaced and recorded exactly once |
| Workflow.ValidateStateMachine | src/kala_agent/contracts/models.py:544-569 | accepts if and only if states are given, the initial state, all endpoints and steps are declared and every state has a path from the initial one; a refusal names the first problem |
| Workflow.ReachableStates | src/kala_agent/contracts/models.py:558-565 | the worklist ends and collects exactly the states with a path from the initial one |
| Construction.CheckSequence | src/kala_agent/contracts/construction.py:328-362 | the two flags accept exactly the scripts whose sketches and consuming operations are adjacent pairs after an initial solid, and name the fault of the first bad step |
| Construction.AcceptedScriptsAreTheGrammar | src/kala_agent/contracts/construction.py:328-362 | those are exactly: sketch, solid, then any number of helices and of sketches consumed at once |
| Construction.GoodPrefixesCanBeCompleted | src/kala_agent/contracts/construction.py:332-357 | the loop refuses a step exactly when no continuation of the script up to it is acceptable |
| Construction.AcceptedScriptsBuild | src/kala_agent/contracts/construction.py:328-362 | an accepted script is never stuck, ends with a solid and no open sketch, and has as many sketches as consuming operations |
| Construction.CheckOrder | src/kala_agent/contracts/construction.py:500-514 | accepts exactly known steps in solver order that include a solve; a refusal names the first problem |
| Construction.OrderIsStages | src/kala_agent/contracts/construction.py:71-78 | the solver order is: materials, then fixtures, then forces and pressures, then meshes, then solves |
| Construction.CheckReferences | src/kala_agent/contracts/construction.py:424-440 | accepts exactly distinct names, known references and at most 500 steps; a refusal names the problem, and of unknown components the first |
| ArtifactPaths.NormalizePath | src/kala_agent/contracts/models.py:90-119 | accepts exactly absolute paths without bad escapes, malformed UTF-8, control characters, backslashes and decoded traversal segments, names the first problem, and returns the path without its empty segments |
| ArtifactPaths.NormalisationIsIdempotent | src/kala_agent/contracts/models.py:102-119 | a normalised path passes every check again and is returned unchanged |
| ArtifactPaths.CanonicalKeepsSegments | src/kala_agent/contracts/models.py:115-119 | the nonempty segments are kept in order, with one slash before each and none at the end |
| PathSpellings.ChecksSeeTheText | src/kala_agent/contracts/models.py:101-110 | however a text is spelled, literally or in escapes of either case, its path passes exactly if the text has no control character, no backslash and no segment of dots, and is UTF-8 |
| PathSpellings.PathsAreSpellings | src/kala_agent/contracts/models.py:98-101 | every path without a bad escape spells some text |
| PathSpellings.UnquoteUndoesSpelling | src/kala_agent/contracts/models.py:101-102 | escaping any characters of a text below 256 and decoding gives the text back |
| PathSpellings.SpelledDotsAreRefused | src/kala_agent/contracts/models.py:109-110 | a segment that reads `.` or `..` in any mix of literal and escaped characters is refused wherever it stands |
| PathSpellings.SpelledControlsAreRefused | src/kala_agent/contracts/models.py:105-108 | the same for a control character or a backslash |
| PathSpellings.WellFormedIffUtf8 | src/kala_agent/contracts/models.py:101-104 | bytes are accepted exactly if they are the UTF-8 encoding of some characters |
| Identifiers.RevisionIdIsInjective | src/kala_agent/application.py:2144 | two revisions share an identifier only if design and sequence agree, although design ids may contain `-r` and digits |
| Identifiers.StripTakesBlanksOff | src/kala_agent/application.py:608-619 | normalising an identifier takes off the blanks at both ends and nothing else |
| Identifiers.DecimalReadsBack | backend/compat/generate_corpus.py:229-230 | reading a printed number back gives the number |

## Left out

- SQLite, the journal's hash chain, the artifact store and the policy engine appear only as what they
  are relied on for. Eviction of tracked approvals is any set of other requests.
- Threads of one process: a unit of work is one step, which may have noted its policy long before. A
  note taken in the middle of another thread's unit, and waiting units other than those of prepare
  and decide, are not modelled.
- Timestamps, reasons and notes, the workflow that may authorise a decision, and approval statuses
  other than pending, approved and rejected.
- Rendering of events for reading (`list_events`) and of views: they only compute from what is stored.
- `Decimal` rounding of very wide costs and floating-point error in durations.
- Ledger convenience calls (`record_*`, `can_consume`, `is_exhausted`): one-line forms of `consume`
  and the check.
- Transformations are a set, where the source sorts and de-duplicates a tuple.
- A report is charged one byte per character and a newline; multi-byte text is not modelled.
- `str()` of a replaced value is any function of the value, so not of the key order of an object.
- The reason, type and format columns of a declaration, and the final sorting of declarations.
- Digits are ASCII; the path patterns' Unicode digits are not modelled.
- Blanks are the ASCII ones and U+001C to U+001F: `strip` also removes U+0085, U+00A0 and other Unicode
  blanks.
- The scheme, host and port of artifact URIs.
- HostMasking.RecordBody: the comparison of a recorded body with its recorded text, and the lengths,
  digests and headers written beside it.
- Application.KalaApplication.CreateDesignRevision: the read-back of the record at its end, which is
  what `EveryRevisionReadsBack` is about.
- Field validators, numeric ranges and message texts of the construction and workflow contracts, and
  the canonicalisation of their name lists.
- HTTP routes, command line, CAD and evaluators, desktop application: transport, I/O and formulas.
- ProtocolSolo.AloneStaysInStep: for one process at a time, because with two it is false;
  `AgreesIffNothingDecidedElsewhere` and `MemoryCoversRecordIffCurrent` say exactly when it holds with
  any number.
- ProtocolSolo.AloneKeepsUsage: the same; `UsageIsKeptIffUpToDate` is the general statement.
- ProtocolSolo.CrashAndRestart: the same; `RestartTakesLastRecord` is the general statement.
- Rederivation.ShortDesignsStayReadable: for designs of fewer than 10^34 revisions, because a longer
  revision number would not fit an identifier.
