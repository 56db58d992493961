/** What holds in addition when one process at a time, with one thread, uses the store, and that a
    second process is enough to lose it. */
module ProtocolSolo {
  import opened Wrappers
  import opened Identifiers
  import opened Ledgers
  import opened Revisions
  import opened Protocol
  import opened ProtocolInvariant
  import opened ProtocolRuns
  import opened ProtocolTheorems
  import opened ProtocolRecords
  import opened ProtocolAgreement
  import Usage
  import LedgerRuns

  /** Of one process, and of one thread: no unit begins while another one runs. */
  predicate Solo(a: Action) {
    match a
    case OpenUnit(_) => false
    case FinishPrepare(_, _) => true
    case FinishDecision(_, _) => true
    case FailUnit(_) => true
    case _ => a.pid == 0
  }

  function SavedStatus(store: Store): map<RequestId, Status> {
    if store.savedPolicy.Some? then store.savedPolicy.value.status else map[]
  }

  /** The live process tracks exactly what the last committed unit recorded, agrees with the
      store, and has spent at least what is recorded. */
  predicate InStep(process: Process, store: Store) {
    && Agrees(process.policy, store.approvals)
    && process.policy.status == SavedStatus(store)
    && (store.savedBudget.Some? ==> Usage.Dominates(process.budget.usage, store.savedBudget.value.usage))
  }

  predicate SoloInvariant(s: System) {
    && s.processes.Keys <= {0}
    && (forall f :: f in s.flights ==> s.flights[f].pid == 0 && s.flights[f].note.None?)
    && SavedAgrees(s.store)
    && (0 in s.processes ==> InStep(s.processes[0], s.store))
  }

  lemma PrepareKeepsStep(store: Store, process: Process, d: Derived, evicted: set<RequestId>)
    requires InStep(process, store)
    ensures var u := PrepareUnit(store, process, d, evicted);
            && InStep(process.(policy := u.policy), u.store)
            && (SavedAgrees(store) ==> SavedAgrees(u.store))
  {
  }

  lemma DecideKeepsStep(store: Store, process: Process, d: Derived, verdict: Verdict, actor: string, evicted: set<RequestId>)
    requires InStep(process, store)
    ensures var u := DecideUnit(store, process, d, verdict, actor, evicted);
            && InStep(process.(policy := u.policy), u.store)
            && (SavedAgrees(store) ==> SavedAgrees(u.store))
  {
    hide CompareAndSwap;
  }

  lemma SoloStep(c: Config, s: System, a: Action)
    requires Invariant(s) && SoloInvariant(s) && Solo(a) && c.limits.Valid()
    ensures SoloInvariant(Next(c, s, a))
  {
    hide StoreInvariant, SoundBudget, PublishCommit, BeginDecision, Restart, PrepareUnit;
    hide DecideUnit, AcceptInputs, Derive, DescribesPast, Coherent, RequireIdentifier, NeverAhead, NotesBehind, FlightsDerived;
    match a
    case Launch(pid) =>
      if Restart(s.store, Defaults(c)).Ok? {
        RestoredInStep(c, s);
      }
    case StartPrepare(flight, pid, subject, inputs) =>
      var accepted := AcceptInputs(c.packages, subject, inputs);
      if pid in s.processes && accepted.Ok? {
        PublicationIsDerivation(c.packages, s.store.revisions, s.artifacts, s.processes[pid].budget, accepted.value.0, accepted.value.1);
      }
    case FinishPrepare(flight, evicted) =>
      hide Agrees, SavedStatus, PolicyLeft;
      if flight in s.flights && s.flights[flight].pid in s.processes {
        PrepareKeepsStep(s.store, s.processes[0], s.flights[flight].derived, evicted);
        UnnotedPolicy(s.flights[flight], PrepareUnit(s.store, s.processes[0], s.flights[flight].derived, evicted));
      }
    case FinishDecision(flight, evicted) =>
      hide Agrees, SavedStatus, PolicyLeft;
      if flight in s.flights && s.flights[flight].pid in s.processes && s.flights[flight].Deciding? {
        var f := s.flights[flight];
        DecideKeepsStep(s.store, s.processes[0], f.derived, f.verdict, f.actor, evicted);
        UnnotedPolicy(f, DecideUnit(s.store, s.processes[0], f.derived, f.verdict, f.actor, evicted));
      }
    case Spend(pid, call) =>
      if pid in s.processes {
        SpendingIsSound(s.processes[pid].budget, call);
      }
    case _ =>
  }

  lemma UnnotedPolicy<T>(f: Flight, u: Unit<T>)
    requires f.note.None?
    ensures PolicyLeft(f, u) == u.policy
  {
  }

  lemma RestoredInStep(c: Config, s: System)
    requires Invariant(s) && SoloInvariant(s) && c.limits.Valid() && Restart(s.store, Defaults(c)).Ok?
    ensures InStep(Restart(s.store, Defaults(c)).value, s.store)
  {
    hide StoreInvariant, SoundBudget, NeverAhead;
    RestartIsSound(c, s);
  }

  predicate AllSolo(actions: seq<Action>) {
    forall i :: 0 <= i < |actions| ==> Solo(actions[i])
  }

  lemma {:induction false} SoloRun(c: Config, actions: seq<Action>)
    requires c.limits.Valid() && AllSolo(actions)
    ensures SoloInvariant(Run(c, actions))
  {
    hide Next, Invariant, SoloInvariant;
    if actions == [] {
      InitialIsSolo();
    } else {
      var earlier := actions[..|actions| - 1];
      SoloRun(c, earlier);
      InitialIsInvariant();
      StepsKeepInvariant(c, INITIAL, earlier);
      SoloStep(c, Run(c, earlier), actions[|actions| - 1]);
    }
  }

  lemma InitialIsSolo()
    ensures SoloInvariant(INITIAL)
  {
  }

  /** Some run of one process at a time, with one thread, ends in this state. */
  ghost predicate ReachableAlone(c: Config, s: System) {
    c.limits.Valid() && exists actions :: AllSolo(actions) && s == Run(c, actions)
  }

  /** One process at a time, with one thread: after every step of every run, whatever failed or crashed in
      between, the policy engine agrees with the approval store on every request it tracks, its
      record is that of the last committed unit, and the recorded usage never exceeds the usage
      in memory. */
  lemma AloneStaysInStep(c: Config, s: System)
    requires ReachableAlone(c, s)
    ensures Reachable(c, s) && SoloInvariant(s)
  {
    hide Run;
    var actions :| AllSolo(actions) && s == Run(c, actions);
    SoloRun(c, actions);
  }

  predicate AllOfZero(syncs: seq<Sync>) {
    forall i :: 0 <= i < |syncs| ==> syncs[i].pid == 0
  }

  lemma SoloSyncStep(c: Config, s: System, a: Action)
    requires SoloInvariant(s) && Solo(a)
    ensures AllOfZero(SyncsOf(c, s, a))
  {
    hide PrepareUnit, DecideUnit, Restart, SavedAgrees, InStep;
  }

  lemma {:induction false} SoloSyncs(c: Config, actions: seq<Action>)
    requires c.limits.Valid() && AllSolo(actions)
    ensures AllOfZero(Syncs(c, INITIAL, actions))
  {
    hide Next, SyncsOf, Solo, Invariant, SoloInvariant;
    if actions != [] {
      var earlier := actions[..|actions| - 1];
      SoloSyncs(c, earlier);
      SoloRun(c, earlier);
      SoloSyncStep(c, Run(c, earlier), actions[|actions| - 1]);
    }
  }

  /** Nobody overtakes a process that is alone: live is current. */
  lemma {:induction false} AloneIsCurrent(syncs: seq<Sync>)
    requires AllOfZero(syncs) && Possible({}, syncs)
    ensures Current({}, syncs) == Running({}, syncs)
  {
    if syncs != [] {
      var n := |syncs| - 1;
      PossiblePrefix({}, syncs, n);
      AloneIsCurrent(syncs[..n]);
      assert Enabled(Running({}, syncs[..n]), syncs[n]);
      AloneIsZero(syncs[..n]);
    }
  }

  lemma {:induction false} AloneIsZero(syncs: seq<Sync>)
    requires AllOfZero(syncs)
    ensures Running({}, syncs) <= {0}
  {
    if syncs != [] {
      AloneIsZero(syncs[..|syncs| - 1]);
    }
  }

  /** One process at a time: recorded usage never decreases, because nobody is ever overtaken. */
  lemma AloneKeepsUsage(c: Config, actions: seq<Action>)
    requires c.limits.Valid() && AllSolo(actions)
    ensures KeepsUsage(c, actions)
  {
    var syncs := Syncs(c, INITIAL, actions);
    SoloSyncs(c, actions);
    HistoriesArePossible(c, actions);
    forall i | 0 <= i < |syncs| && syncs[i].Recorded?
      ensures syncs[i].pid in Current({}, syncs[..i])
    {
      PossiblePrefix({}, syncs, i);
      AloneIsCurrent(syncs[..i]);
      assert Enabled(Running({}, syncs[..i]), syncs[i]);
    }
    UpToDateRunKeepsUsage(c, actions);
  }

  /** The process came back with the policy and the budget of the last committed unit. */
  predicate Recovered(before: Process, store: Store, again: Process) {
    && again.policy.status == before.policy.status
    && (store.savedPolicy.Some? ==> again.policy == store.savedPolicy.value)
    && (store.savedBudget.Some? ==> again.budget == store.savedBudget.value && Usage.Dominates(before.budget.usage, again.budget.usage))
  }

  /** Whoever else uses the store: a process that crashes, at any point, and starts again takes up
      exactly the policy and the budget of the last record, and starts whenever the record can be
      read. */
  lemma RestartTakesLastRecord(c: Config, s: System, pid: nat)
    requires Reachable(c, s) && pid in s.processes
    ensures var again := Next(c, Next(c, s, Crash(pid)), Launch(pid));
            && again.store == s.store
            && (pid in again.processes <==> ReadableRecord(s.store))
            && (pid in again.processes ==>
                  again.processes[pid] == Process(GetOr(s.store.savedPolicy, Defaults(c).policy), GetOr(s.store.savedBudget, Fresh(c.limits))))
  {
    ReachableIsInvariant(c, s);
    LaunchSucceeds(c, s);
    hide Invariant, Reachable, Restart, ReadableRecord;
    if Restart(s.store, Defaults(c)).Ok? {
      RestoredIsRecord(c, s);
    }
  }

  lemma RestoredIsRecord(c: Config, s: System)
    requires Invariant(s) && c.limits.Valid() && Restart(s.store, Defaults(c)).Ok?
    ensures Restart(s.store, Defaults(c)).value == Process(GetOr(s.store.savedPolicy, Defaults(c).policy), GetOr(s.store.savedBudget, Fresh(c.limits)))
  {
    RestartIsSound(c, s);
    hide Invariant;
  }

  /** One process at a time: a crash at any point and a restart lose no decision. The policy
      tracks the same requests with the same statuses, capabilities are those of the last
      committed unit, usage is what that unit recorded, and the store is untouched. The restart
      succeeds unless 10^244 reservations or more have been numbered. */
  lemma CrashAndRestart(c: Config, s: System)
    requires ReachableAlone(c, s) && 0 in s.processes
    ensures var again := Next(c, Next(c, s, Crash(0)), Launch(0));
            && again.store == s.store && again.flights == map[]
            && (0 in again.processes <==> ReadableRecord(s.store))
            && (0 in again.processes ==> Recovered(s.processes[0], s.store, again.processes[0]))
    ensures (s.store.savedBudget.Some? ==> s.store.savedBudget.value.next <= PowerOfTen(244)) ==>
              0 in Next(c, Next(c, s, Crash(0)), Launch(0)).processes
  {
    AloneStaysInStep(c, s);
    RestartTakesLastRecord(c, s, 0);
    LaunchSucceeds(c, s);
    hide Reachable, ReachableAlone, Restart, ReadableRecord, Agrees, PowerOfTen;
  }

  // ----- What a second process loses -----

  lemma TwoFirstLaunches(c: Config)
    ensures Run(c, [Launch(0), Launch(1)]) == INITIAL.(processes := map[0 := Defaults(c), 1 := Defaults(c)])
  {
    StepsOneMore(c, INITIAL, [], Launch(0));
    StepsOneMore(c, INITIAL, [Launch(0)], Launch(1));
    assert [] + [Launch(0)] == [Launch(0)] && [Launch(0)] + [Launch(1)] == [Launch(0), Launch(1)];
    assert Restart(EMPTY_STORE, Defaults(c)) == Ok(Defaults(c));
  }

  /** With two processes recorded usage can decrease: both start, the first spends anything at
      all and closes, and the record of the second, which spent nothing, replaces it. */
  lemma TwoProcessesLoseUsage(c: Config, charge: Usage.BudgetUsage)
    requires Consume(Fresh(c.limits), charge).1.Ok? && charge != Usage.ZERO
    ensures var spent := [Launch(0), Launch(1)] + [Spend(0, LedgerRuns.CallConsume(charge))] + [Close(0)];
            !UsageKept(Run(c, spent).store, Run(c, spent + [Close(1)]).store)
  {
    hide Steps, Consume;
    var call := LedgerRuns.CallConsume(charge);
    var both := [Launch(0), Launch(1)];
    TwoFirstLaunches(c);
    StepsOneMore(c, INITIAL, both, Spend(0, call));
    StepsOneMore(c, INITIAL, both + [Spend(0, call)], Close(0));
    StepsOneMore(c, INITIAL, both + [Spend(0, call)] + [Close(0)], Close(1));
    SpentUsage(Fresh(c.limits), charge);
    var spending := Run(c, both + [Spend(0, call)]);
    assert spending.processes[0].budget.usage == charge && spending.processes[1].budget.usage == Usage.ZERO;
  }

  lemma SpentUsage(l: Ledger, charge: Usage.BudgetUsage)
    requires Consume(l, charge).1.Ok? && l.usage == Usage.ZERO
    ensures Consume(l, charge).0.usage == charge
  {
  }
}
