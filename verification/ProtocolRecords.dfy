/** What processes that share one store do to the recorded budget. Each process has its own
    ledger and records it over whatever is recorded, so whether recorded usage can decrease is a
    matter of who recorded, and when. */
module ProtocolRecords {
  import opened Wrappers
  import opened Identifiers
  import opened Ledgers
  import opened Revisions
  import opened Protocol
  import opened ProtocolInvariant
  import opened ProtocolRuns
  import Usage
  import LedgerImports
  import LedgerRuns

  predicate UsageKept(before: Store, after: Store) {
    before.savedBudget.Some? ==>
      after.savedBudget.Some? && Usage.Dominates(after.savedBudget.value.usage, before.savedBudget.value.usage)
  }

  /** The process has itself seen at least the usage that is recorded. */
  predicate HasSeen(budget: Ledger, store: Store) {
    store.savedBudget.Some? ==> Usage.Dominates(budget.usage, store.savedBudget.value.usage)
  }

  // ----- Who starts, records and ends -----

  datatype Sync = Started(pid: nat) | Recorded(pid: nat) | Ended(pid: nat)

  function SyncsOf(c: Config, s: System, a: Action): seq<Sync> {
    match a
    case Launch(pid) => if pid !in s.processes && Restart(s.store, Defaults(c)).Ok? then [Started(pid)] else []
    case Crash(pid) => if pid in s.processes then [Ended(pid)] else []
    case Close(pid) => if pid in s.processes then [Recorded(pid), Ended(pid)] else []
    case FinishPrepare(flight, evicted) =>
      if UnitCommits(s, flight, evicted) && s.flights[flight].Preparing? then [Recorded(s.flights[flight].pid)] else []
    case FinishDecision(flight, evicted) =>
      if UnitCommits(s, flight, evicted) && s.flights[flight].Deciding? then [Recorded(s.flights[flight].pid)] else []
    case RecordEvaluation(pid) => if pid in s.processes then [Recorded(pid)] else []
    case _ => []
  }

  /** The starts, records and ends of a run, in order. */
  function Syncs(c: Config, s: System, actions: seq<Action>): seq<Sync> {
    if actions == [] then []
    else
      var earlier := actions[..|actions| - 1];
      Syncs(c, s, earlier) + SyncsOf(c, Steps(c, s, earlier), actions[|actions| - 1])
  }

  function CurrentAfter(current: set<nat>, sync: Sync): set<nat> {
    match sync
    case Started(pid) => current + {pid}
    case Recorded(pid) => {pid}
    case Ended(pid) => current - {pid}
  }

  /** The processes that started, or themselves recorded, after the last record by another. */
  function Current(start: set<nat>, syncs: seq<Sync>): set<nat> {
    if syncs == [] then start else CurrentAfter(Current(start, syncs[..|syncs| - 1]), syncs[|syncs| - 1])
  }

  /** Nobody records after another process did without having started or recorded since. */
  predicate UpToDate(start: set<nat>, syncs: seq<Sync>) {
    forall i :: 0 <= i < |syncs| && syncs[i].Recorded? ==> syncs[i].pid in Current(start, syncs[..i])
  }

  lemma {:induction false} CurrentConcat(start: set<nat>, a: seq<Sync>, b: seq<Sync>)
    ensures Current(start, a + b) == Current(Current(start, a), b)
  {
    if b == [] {
      assert a + b == a;
    } else {
      assert (a + b)[..|a + b| - 1] == a + b[..|b| - 1];
      CurrentConcat(start, a, b[..|b| - 1]);
    }
  }

  lemma UpToDateConcat(start: set<nat>, a: seq<Sync>, b: seq<Sync>)
    requires UpToDate(start, a + b)
    ensures UpToDate(start, a) && UpToDate(Current(start, a), b)
  {
    forall i | 0 <= i < |a| && a[i].Recorded?
      ensures a[i].pid in Current(start, a[..i])
    {
      assert (a + b)[..i] == a[..i] && (a + b)[i] == a[i];
    }
    forall i | 0 <= i < |b| && b[i].Recorded?
      ensures b[i].pid in Current(Current(start, a), b[..i])
    {
      assert (a + b)[..|a| + i] == a + b[..i] && (a + b)[|a| + i] == b[i];
      CurrentConcat(start, a, b[..i]);
    }
  }

  // ----- Current processes have seen the record -----

  predicate CaughtUp(s: System, current: set<nat>) {
    forall pid :: pid in current ==> pid in s.processes && HasSeen(s.processes[pid].budget, s.store)
  }

  lemma CurrentOfOne(start: set<nat>, sync: Sync)
    ensures Current(start, [sync]) == CurrentAfter(start, sync)
  {
    assert [sync][..0] == [];
    assert Current(start, []) == start;
  }

  lemma CurrentOfClose(start: set<nat>, pid: nat)
    ensures Current(start, [Recorded(pid), Ended(pid)]) == {}
    ensures UpToDate(start, [Recorded(pid), Ended(pid)]) ==> pid in start
  {
    var syncs := [Recorded(pid), Ended(pid)];
    assert syncs[..1] == [Recorded(pid)] && syncs[..0] == [];
    CurrentOfOne(start, Recorded(pid));
    assert Current(start, []) == start;
  }

  lemma UpToDateOfOne(start: set<nat>, sync: Sync)
    requires UpToDate(start, [sync]) && sync.Recorded?
    ensures sync.pid in start
  {
    assert [sync][0] == sync && [sync][..0] == [];
    assert Current(start, []) == start;
  }

  lemma StepKeepsCaughtUp(c: Config, s: System, a: Action, current: set<nat>)
    requires Invariant(s) && c.limits.Valid() && CaughtUp(s, current)
    ensures CaughtUp(Next(c, s, a), Current(current, SyncsOf(c, s, a)))
    ensures UpToDate(current, SyncsOf(c, s, a)) ==> UsageKept(s.store, Next(c, s, a).store)
  {
    hide StoreInvariant, SoundBudget, PublishCommit, BeginDecision, CompareAndSwap, Restart, AcceptInputs, Derive, UpToDate, Current;
    hide NeverAhead, DescribesPast, Coherent, Usage.Dominates;
    UsageIsReflexive(s);
    match a
    case Launch(pid) =>
      if Restart(s.store, Defaults(c)).Ok? {
        RestartIsSound(c, s);
      }
      CurrentOfOne(current, Started(pid));
      NothingSynced(current);
    case Crash(pid) =>
      CurrentOfOne(current, Ended(pid));
      NothingSynced(current);
    case Close(pid) =>
      CurrentOfClose(current, pid);
      NothingSynced(current);
    case StartPrepare(flight, pid, subject, inputs) =>
      NothingSynced(current);
      PublishingSeesMore(c, s, a);
    case FinishPrepare(flight, evicted) => UnitStep(c, s, a, current, flight, evicted);
    case FinishDecision(flight, evicted) => UnitStep(c, s, a, current, flight, evicted);
    case RecordEvaluation(pid) =>
      NothingSynced(current);
      CurrentOfOne(current, Recorded(pid));
      if UpToDate(current, [Recorded(pid)]) {
        UpToDateOfOne(current, Recorded(pid));
      }
    case Spend(pid, call) =>
      NothingSynced(current);
      SpendingSeesMore(c, s, a);
    case _ => NothingSynced(current);
  }

  lemma NothingSynced(current: set<nat>)
    ensures Current(current, []) == current
  {
  }

  lemma UsageIsReflexive(s: System)
    ensures UsageKept(s.store, s.store)
    ensures forall pid :: pid in s.processes ==> Usage.Dominates(s.processes[pid].budget.usage, s.processes[pid].budget.usage)
    ensures s.store.savedBudget.Some? ==> Usage.Dominates(s.store.savedBudget.value.usage, s.store.savedBudget.value.usage)
  {
  }

  lemma SpendingSeesMore(c: Config, s: System, a: Action)
    requires Invariant(s) && a.Spend?
    ensures forall pid :: pid in s.processes && HasSeen(s.processes[pid].budget, s.store) ==>
                            pid in Next(c, s, a).processes && HasSeen(Next(c, s, a).processes[pid].budget, s.store)
  {
    hide StoreInvariant, NeverAhead, SoundBudget;
    if a.pid in s.processes {
      SpendingIsSound(s.processes[a.pid].budget, a.call);
    }
  }

  lemma PublishingSeesMore(c: Config, s: System, a: Action)
    requires Invariant(s) && a.StartPrepare?
    ensures Next(c, s, a).store == s.store
    ensures forall pid :: pid in s.processes && HasSeen(s.processes[pid].budget, s.store) ==>
                            pid in Next(c, s, a).processes && HasSeen(Next(c, s, a).processes[pid].budget, s.store)
  {
    hide StoreInvariant, NeverAhead, SoundBudget, PublishCommit, AcceptInputs, Derive;
    var accepted := AcceptInputs(c.packages, a.subject, a.inputs);
    if a.pid in s.processes && accepted.Ok? {
      PublicationIsDerivation(c.packages, s.store.revisions, s.artifacts, s.processes[a.pid].budget, accepted.value.0, accepted.value.1);
    }
  }

  lemma UnitStep(c: Config, s: System, a: Action, current: set<nat>, flight: nat, evicted: set<RequestId>)
    requires CaughtUp(s, current) && (a == FinishPrepare(flight, evicted) || a == FinishDecision(flight, evicted))
    ensures CaughtUp(Next(c, s, a), Current(current, SyncsOf(c, s, a)))
    ensures UpToDate(current, SyncsOf(c, s, a)) ==> UsageKept(s.store, Next(c, s, a).store)
  {
    hide CompareAndSwap, UpToDate, Current, Undecided;
    UsageIsReflexive(s);
    NothingSynced(current);
    if UnitCommits(s, flight, evicted) {
      var pid := s.flights[flight].pid;
      CurrentOfOne(current, Recorded(pid));
      if UpToDate(current, [Recorded(pid)]) {
        UpToDateOfOne(current, Recorded(pid));
      }
    }
  }

  lemma {:induction false} StepsKeepCaughtUp(c: Config, s: System, actions: seq<Action>, current: set<nat>)
    requires Invariant(s) && c.limits.Valid() && CaughtUp(s, current)
    ensures CaughtUp(Steps(c, s, actions), Current(current, Syncs(c, s, actions)))
    ensures UpToDate(current, Syncs(c, s, actions)) ==> UsageKept(s.store, Steps(c, s, actions).store)
  {
    hide Next, Invariant, CaughtUp, UpToDate, SyncsOf, UsageKept, Current;
    if actions == [] {
      NothingSynced(current);
      UsageIsReflexive(s);
    } else {
      var earlier, last := actions[..|actions| - 1], actions[|actions| - 1];
      var middle := Steps(c, s, earlier);
      StepsKeepCaughtUp(c, s, earlier, current);
      StepsKeepInvariant(c, s, earlier);
      StepKeepsCaughtUp(c, middle, last, Current(current, Syncs(c, s, earlier)));
      CurrentConcat(current, Syncs(c, s, earlier), SyncsOf(c, middle, last));
      if UpToDate(current, Syncs(c, s, actions)) {
        UpToDateConcat(current, Syncs(c, s, earlier), SyncsOf(c, middle, last));
        KeptTwice(s.store, middle.store, Next(c, middle, last).store);
      }
    }
  }

  lemma KeptTwice(a: Store, b: Store, d: Store)
    requires UsageKept(a, b) && UsageKept(b, d)
    ensures UsageKept(a, d)
  {
  }

  // ----- Every run of a history, or some run of it -----

  lemma {:induction false} SyncsConcat(c: Config, s: System, a: seq<Action>, b: seq<Action>)
    ensures Syncs(c, s, a + b) == Syncs(c, s, a) + Syncs(c, Steps(c, s, a), b)
  {
    hide Next, SyncsOf;
    if b == [] {
      assert a + b == a;
    } else {
      var shorter := b[..|b| - 1];
      assert (a + b)[..|a + b| - 1] == a + shorter;
      SyncsConcat(c, s, a, shorter);
      StepsConcat(c, s, a, shorter);
    }
  }

  function RunningAfter(live: set<nat>, sync: Sync): set<nat> {
    match sync
    case Started(pid) => live + {pid}
    case Recorded(pid) => live
    case Ended(pid) => live - {pid}
  }

  function Running(start: set<nat>, syncs: seq<Sync>): set<nat> {
    if syncs == [] then start else RunningAfter(Running(start, syncs[..|syncs| - 1]), syncs[|syncs| - 1])
  }

  predicate Enabled(live: set<nat>, sync: Sync) {
    if sync.Started? then sync.pid !in live else sync.pid in live
  }

  /** Only live processes record and end, and only others start: what every run's history is. */
  predicate Possible(start: set<nat>, syncs: seq<Sync>) {
    forall i :: 0 <= i < |syncs| ==> Enabled(Running(start, syncs[..i]), syncs[i])
  }

  lemma PossiblePrefix(start: set<nat>, syncs: seq<Sync>, n: nat)
    requires Possible(start, syncs) && n <= |syncs|
    ensures Possible(start, syncs[..n])
  {
    forall i | 0 <= i < n
      ensures Enabled(Running(start, syncs[..n][..i]), syncs[..n][i])
    {
      assert syncs[..n][..i] == syncs[..i];
    }
  }

  lemma {:induction false} RunningConcat(start: set<nat>, a: seq<Sync>, b: seq<Sync>)
    ensures Running(start, a + b) == Running(Running(start, a), b)
  {
    if b == [] {
      assert a + b == a;
    } else {
      assert (a + b)[..|a + b| - 1] == a + b[..|b| - 1];
      RunningConcat(start, a, b[..|b| - 1]);
    }
  }

  lemma PossibleRest(start: set<nat>, syncs: seq<Sync>, n: nat)
    requires Possible(start, syncs) && n <= |syncs|
    ensures Possible(Running(start, syncs[..n]), syncs[n..])
  {
    forall i | 0 <= i < |syncs| - n
      ensures Enabled(Running(Running(start, syncs[..n]), syncs[n..][..i]), syncs[n..][i])
    {
      assert syncs[..n] + syncs[n..][..i] == syncs[..n + i];
      RunningConcat(start, syncs[..n], syncs[n..][..i]);
    }
  }

  /** The action that does nothing else. */
  function ActionFor(sync: Sync): Action {
    match sync
    case Started(pid) => Launch(pid)
    case Recorded(pid) => RecordEvaluation(pid)
    case Ended(pid) => Crash(pid)
  }

  function ActionsFor(syncs: seq<Sync>): (r: seq<Action>)
    ensures |r| == |syncs|
  {
    seq(|syncs|, i requires 0 <= i < |syncs| => ActionFor(syncs[i]))
  }

  /** No ledger holds a reservation. */
  predicate Unreserved(s: System) {
    && (forall pid :: pid in s.processes ==> s.processes[pid].budget.reservations == [])
    && (s.store.savedBudget.Some? ==> s.store.savedBudget.value.reservations == [])
  }

  /** The budgets after one such action: a started process takes the recorded one. */
  predicate Moves(c: Config, s: System, sync: Sync, after: System) {
    && after.processes.Keys == RunningAfter(s.processes.Keys, sync)
    && (forall pid :: pid in after.processes && sync != Started(pid) ==>
                        pid in s.processes && after.processes[pid].budget == s.processes[pid].budget)
    && (sync.Started? ==> after.processes[sync.pid].budget == GetOr(s.store.savedBudget, Fresh(c.limits)))
    && (if sync.Recorded? then sync.pid in s.processes && after.store.savedBudget == Some(s.processes[sync.pid].budget)
        else after.store.savedBudget == s.store.savedBudget)
  }

  lemma LaunchReadsBack(c: Config, s: System)
    requires Invariant(s) && c.limits.Valid() && Unreserved(s)
    ensures Restart(s.store, Defaults(c)).Ok?
    ensures Restart(s.store, Defaults(c)).value.budget == GetOr(s.store.savedBudget, Fresh(c.limits))
  {
    if s.store.savedBudget.Some? {
      LedgerImports.ExportThenImport(s.store.savedBudget.value, Fresh(c.limits));
    }
  }

  lemma ReplayStep(c: Config, s: System, sync: Sync)
    requires Invariant(s) && c.limits.Valid() && Unreserved(s) && Enabled(s.processes.Keys, sync)
    ensures var after := Next(c, s, ActionFor(sync));
            && SyncsOf(c, s, ActionFor(sync)) == [sync]
            && Unreserved(after) && Moves(c, s, sync, after)
  {
    hide Invariant, Restart;
    LaunchReadsBack(c, s);
    match sync
    case Started(pid) =>
    case Recorded(pid) =>
    case Ended(pid) =>
  }

  lemma ReplayOneMore(syncs: seq<Sync>)
    requires syncs != []
    ensures ActionsFor(syncs)[..|syncs| - 1] == ActionsFor(syncs[..|syncs| - 1])
    ensures ActionsFor(syncs)[|syncs| - 1] == ActionFor(syncs[|syncs| - 1])
  {
  }

  lemma {:induction false} ReplayStates(c: Config, s: System, syncs: seq<Sync>)
    requires Invariant(s) && c.limits.Valid() && Unreserved(s) && Possible(s.processes.Keys, syncs)
    ensures var after := Steps(c, s, ActionsFor(syncs));
            Unreserved(after) && after.processes.Keys == Running(s.processes.Keys, syncs)
  {
    hide Next, Invariant, SyncsOf, Enabled, Unreserved, ActionFor, ActionsFor;
    if syncs == [] {
      assert ActionsFor(syncs) == [];
    } else {
      var earlier, last := syncs[..|syncs| - 1], syncs[|syncs| - 1];
      assert Enabled(Running(s.processes.Keys, earlier), last);
      PossiblePrefix(s.processes.Keys, syncs, |syncs| - 1);
      hide Possible;
      ReplayStates(c, s, earlier);
      StepsKeepInvariant(c, s, ActionsFor(earlier));
      ReplayOneMore(syncs);
      ReplayStep(c, Steps(c, s, ActionsFor(earlier)), last);
    }
  }

  lemma {:induction false} ReplaySyncs(c: Config, s: System, syncs: seq<Sync>)
    requires Invariant(s) && c.limits.Valid() && Unreserved(s) && Possible(s.processes.Keys, syncs)
    ensures Syncs(c, s, ActionsFor(syncs)) == syncs
  {
    hide Next, Invariant, SyncsOf, Enabled, Unreserved, ActionFor, ActionsFor, Moves, Steps, Running;
    if syncs == [] {
      assert ActionsFor(syncs) == [];
    } else {
      var earlier, last := syncs[..|syncs| - 1], syncs[|syncs| - 1];
      assert Enabled(Running(s.processes.Keys, earlier), last);
      PossiblePrefix(s.processes.Keys, syncs, |syncs| - 1);
      hide Possible;
      ReplaySyncs(c, s, earlier);
      ReplayStates(c, s, earlier);
      StepsKeepInvariant(c, s, ActionsFor(earlier));
      ReplayOneMore(syncs);
      ReplayStep(c, Steps(c, s, ActionsFor(earlier)), last);
      assert earlier + [last] == syncs;
    }
  }

  /** Replaying a possible history makes exactly that history. */
  lemma Replay(c: Config, s: System, syncs: seq<Sync>)
    requires Invariant(s) && c.limits.Valid() && Unreserved(s) && Possible(s.processes.Keys, syncs)
    ensures var after := Steps(c, s, ActionsFor(syncs));
            && Unreserved(after) && after.processes.Keys == Running(s.processes.Keys, syncs)
            && Syncs(c, s, ActionsFor(syncs)) == syncs
  {
    hide Next, Invariant, Unreserved, SyncsOf, ActionsFor, Possible;
    ReplayStates(c, s, syncs);
    ReplaySyncs(c, s, syncs);
  }

  /** Nobody has spent anything. */
  predicate Unspent(c: Config, s: System) {
    && (forall pid :: pid in s.processes ==> s.processes[pid].budget == Fresh(c.limits))
    && (s.store.savedBudget.Some? ==> s.store.savedBudget.value == Fresh(c.limits))
  }

  lemma {:induction false} ReplaySpendsNothing(c: Config, s: System, syncs: seq<Sync>)
    requires Invariant(s) && c.limits.Valid() && Unreserved(s) && Possible(s.processes.Keys, syncs) && Unspent(c, s)
    ensures Unspent(c, Steps(c, s, ActionsFor(syncs)))
  {
    hide Next, Invariant, Enabled, Unreserved, ActionFor, ActionsFor;
    if syncs == [] {
      assert ActionsFor(syncs) == [];
    } else {
      var earlier, last := syncs[..|syncs| - 1], syncs[|syncs| - 1];
      PossiblePrefix(s.processes.Keys, syncs, |syncs| - 1);
      ReplaySpendsNothing(c, s, earlier);
      Replay(c, s, earlier);
      StepsKeepInvariant(c, s, ActionsFor(earlier));
      ReplayOneMore(syncs);
      ReplayStep(c, Steps(c, s, ActionsFor(earlier)), last);
    }
  }

  /** No record, and nothing of process `pid`. */
  predicate Apart(syncs: seq<Sync>, pid: nat) {
    forall i :: 0 <= i < |syncs| ==> !syncs[i].Recorded? && syncs[i].pid != pid
  }

  lemma {:induction false} ReplayApart(c: Config, s: System, syncs: seq<Sync>, pid: nat)
    requires Invariant(s) && c.limits.Valid() && Unreserved(s) && Possible(s.processes.Keys, syncs)
    requires Apart(syncs, pid) && pid in s.processes
    ensures var after := Steps(c, s, ActionsFor(syncs));
            && pid in after.processes && after.processes[pid].budget == s.processes[pid].budget
            && after.store.savedBudget == s.store.savedBudget
  {
    hide Next, Invariant, Enabled, Unreserved, ActionFor, ActionsFor;
    if syncs == [] {
      assert ActionsFor(syncs) == [];
    } else {
      var earlier, last := syncs[..|syncs| - 1], syncs[|syncs| - 1];
      PossiblePrefix(s.processes.Keys, syncs, |syncs| - 1);
      ReplayApart(c, s, earlier, pid);
      Replay(c, s, earlier);
      StepsKeepInvariant(c, s, ActionsFor(earlier));
      ReplayOneMore(syncs);
      ReplayStep(c, Steps(c, s, ActionsFor(earlier)), last);
    }
  }

  /** A live process that is not current was overtaken: after it last started or recorded, some
      other process made the last record. */
  lemma {:induction false} Overtaken(syncs: seq<Sync>, pid: nat) returns (i: nat)
    requires Possible({}, syncs) && pid in Running({}, syncs) && pid !in Current({}, syncs)
    ensures i < |syncs| && syncs[i].Recorded? && syncs[i].pid != pid
    ensures pid in Running({}, syncs[..i]) && Apart(syncs[i + 1..], pid)
  {
    var n := |syncs| - 1;
    var earlier, last := syncs[..n], syncs[n];
    if last.Recorded? {
      i := n;
    } else {
      PossiblePrefix({}, syncs, n);
      i := Overtaken(earlier, pid);
      assert earlier[..i] == syncs[..i];
      assert syncs[i + 1..] == earlier[i + 1..] + [last];
    }
  }

  /** A charge that a fresh ledger accepts and that is not nothing. */
  predicate Affordable(c: Config, x: Usage.BudgetUsage) {
    Consume(Fresh(c.limits), x).1.Ok? && x != Usage.ZERO
  }

  lemma FirstCharge(limits: RunBudget, x: Usage.BudgetUsage)
    ensures var (l, outcome) := Consume(Fresh(limits), x); outcome.Ok? ==> l.usage == x && l.reservations == []
  {
    hide Check;
    LedgerRuns.ZeroIsNeutral(x);
  }

  lemma SpendFirst(c: Config, s: System, pid: nat, x: Usage.BudgetUsage)
    requires Invariant(s) && c.limits.Valid() && Unreserved(s) && Unspent(c, s) && pid in s.processes && Affordable(c, x)
    ensures var a := Spend(pid, LedgerRuns.CallConsume(x));
            var after := Next(c, s, a);
            && SyncsOf(c, s, a) == [] && Invariant(after) && Unreserved(after)
            && after.processes.Keys == s.processes.Keys && after.store == s.store
            && after.processes[pid].budget.usage == x
            && forall q :: q in s.processes && q != pid ==> after.processes[q].budget == Fresh(c.limits)
  {
    hide Invariant, Consume;
    StepKeepsInvariant(c, s, Spend(pid, LedgerRuns.CallConsume(x)));
    FirstCharge(c.limits, x);
  }

  lemma NothingIsNotEnough(c: Config, x: Usage.BudgetUsage)
    ensures Affordable(c, x) ==> !Usage.Dominates(Fresh(c.limits).usage, x)
  {
    hide Consume;
  }

  /** The same history with a charge in between. */
  lemma SpliceSyncs(c: Config, before: seq<Sync>, spend: Action, after: seq<Sync>)
    requires Syncs(c, INITIAL, ActionsFor(before)) == before
    requires SyncsOf(c, Run(c, ActionsFor(before)), spend) == []
    requires Syncs(c, Next(c, Run(c, ActionsFor(before)), spend), ActionsFor(after)) == after
    ensures var actions := ActionsFor(before) + [spend] + ActionsFor(after);
            && Syncs(c, INITIAL, actions) == before + after
            && Run(c, actions) == Steps(c, Next(c, Run(c, ActionsFor(before)), spend), ActionsFor(after))
  {
    hide Next, SyncsOf, ActionsFor, Syncs, Steps;
    var a, b := ActionsFor(before), ActionsFor(after);
    StepsOneMore(c, INITIAL, a, spend);
    StepsConcat(c, INITIAL, a + [spend], b);
    SyncsConcat(c, INITIAL, a, [spend]);
    SyncsOfOne(c, Steps(c, INITIAL, a), spend);
    SyncsConcat(c, INITIAL, a + [spend], b);
    assert before + [] == before;
  }

  /** The run of a history in which only the process that made the last record spent, just before
      it: every process overtaken then has not seen what is recorded. */
  lemma OvertakenRun(c: Config, syncs: seq<Sync>, pid: nat, x: Usage.BudgetUsage) returns (actions: seq<Action>)
    requires c.limits.Valid() && Affordable(c, x)
    requires Possible({}, syncs) && pid in Running({}, syncs) && pid !in Current({}, syncs)
    ensures Syncs(c, INITIAL, actions) == syncs
    ensures var s := Run(c, actions);
            && Unreserved(s) && s.processes.Keys == Running({}, syncs)
            && pid in s.processes && !HasSeen(s.processes[pid].budget, s.store)
  {
    hide Next, Invariant, SyncsOf, Affordable, ActionsFor, Usage.Dominates, Current, Syncs, Steps, Apart, Running;
    var i := Overtaken(syncs, pid);
    var before, after, q := syncs[..i], syncs[i..], syncs[i].pid;
    assert before + after == syncs && after[0] == syncs[i] && after[1..] == syncs[i + 1..];
    var s1, spend := Run(c, ActionsFor(before)), Spend(q, LedgerRuns.CallConsume(x));
    ReplayFromStart(c, syncs, i);
    InitialIsInvariant();
    StepsKeepInvariant(c, INITIAL, ActionsFor(before));
    SpendFirst(c, s1, q, x);
    var s2 := Next(c, s1, spend);
    PossibleRest({}, syncs, i);
    Replay(c, s2, after);
    RecordThenApart(c, s2, after, pid);
    NothingIsNotEnough(c, x);
    SpliceSyncs(c, before, spend, after);
    RunningConcat({}, before, after);
    actions := ActionsFor(before) + [spend] + ActionsFor(after);
  }

  lemma ReplayFromStart(c: Config, syncs: seq<Sync>, i: nat)
    requires c.limits.Valid() && Possible({}, syncs) && i < |syncs|
    ensures var s := Run(c, ActionsFor(syncs[..i]));
            && Unreserved(s) && Unspent(c, s)
            && s.processes.Keys == Running({}, syncs[..i])
            && Syncs(c, INITIAL, ActionsFor(syncs[..i])) == syncs[..i]
            && Enabled(s.processes.Keys, syncs[i])
  {
    hide Next, Invariant, SyncsOf, ActionsFor, Syncs, Steps, Running;
    InitialIsInvariant();
    assert INITIAL.processes.Keys == {};
    PossiblePrefix({}, syncs, i);
    Replay(c, INITIAL, syncs[..i]);
    ReplaySpendsNothing(c, INITIAL, syncs[..i]);
  }

  lemma SyncsOfOne(c: Config, s: System, a: Action)
    ensures Syncs(c, s, [a]) == SyncsOf(c, s, a)
  {
    hide Next, SyncsOf;
    assert [a][..0] == [];
  }

  lemma RecordThenApart(c: Config, s: System, syncs: seq<Sync>, pid: nat)
    requires Invariant(s) && c.limits.Valid() && Unreserved(s) && Possible(s.processes.Keys, syncs)
    requires syncs != [] && syncs[0].Recorded? && syncs[0].pid != pid && Apart(syncs[1..], pid) && pid in s.processes
    ensures syncs[0].pid in s.processes
    ensures var after := Steps(c, s, ActionsFor(syncs));
            && pid in after.processes && after.processes[pid].budget == s.processes[pid].budget
            && after.store.savedBudget == Some(s.processes[syncs[0].pid].budget)
  {
    hide Next, Invariant, Unreserved, ActionFor;
    var first, rest := syncs[0], syncs[1..];
    assert syncs[..0] == [] && Running(s.processes.Keys, []) == s.processes.Keys;
    assert Enabled(Running(s.processes.Keys, syncs[..0]), syncs[0]);
    ReplayStep(c, s, first);
    var s1 := Next(c, s, ActionFor(first));
    StepKeepsInvariant(c, s, ActionFor(first));
    PossibleRest(s.processes.Keys, syncs, 1);
    assert syncs[..1] == [first] && Running(s.processes.Keys, syncs[..1]) == s.processes.Keys;
    ReplayApart(c, s1, rest, pid);
    StepsOneMore(c, s, [], ActionFor(first));
    StepsConcat(c, s, [ActionFor(first)], ActionsFor(rest));
    assert ActionsFor(syncs) == [ActionFor(first)] + ActionsFor(rest);
  }

  // ----- The two exact conditions -----

  lemma {:induction false} RunningProcesses(c: Config, actions: seq<Action>)
    ensures Run(c, actions).processes.Keys == Running({}, Syncs(c, INITIAL, actions))
  {
    hide PublishCommit, PrepareUnit, DecideUnit, BeginDecision, Restart, AcceptInputs;
    if actions != [] {
      var earlier, last := actions[..|actions| - 1], actions[|actions| - 1];
      RunningProcesses(c, earlier);
      var s := Run(c, earlier);
      RunningConcat({}, Syncs(c, INITIAL, earlier), SyncsOf(c, s, last));
      RunningStep(c, s, last);
    }
  }

  lemma RunningOfTwo(live: set<nat>, a: Sync, b: Sync)
    ensures Running(live, []) == live && Running(live, [a]) == RunningAfter(live, a) && Running(live, [a, b]) == RunningAfter(RunningAfter(live, a), b)
  {
    assert [a, b][..1] == [a] && [a][..0] == [];
  }

  lemma RunningStep(c: Config, s: System, a: Action)
    ensures Next(c, s, a).processes.Keys == Running(s.processes.Keys, SyncsOf(c, s, a))
  {
    hide PublishCommit, PrepareUnit, DecideUnit, BeginDecision, Restart, AcceptInputs, Running;
    match a
    case Launch(pid) => RunningOfTwo(s.processes.Keys, Started(pid), Started(pid));
    case Crash(pid) => RunningOfTwo(s.processes.Keys, Ended(pid), Ended(pid));
    case Close(pid) => RunningOfTwo(s.processes.Keys, Recorded(pid), Ended(pid));
    case FinishPrepare(flight, _) =>
      RunningOfTwo(s.processes.Keys, Recorded(if flight in s.flights then s.flights[flight].pid else 0), Started(0));
    case FinishDecision(flight, _) =>
      RunningOfTwo(s.processes.Keys, Recorded(if flight in s.flights then s.flights[flight].pid else 0), Started(0));
    case RecordEvaluation(pid) => RunningOfTwo(s.processes.Keys, Recorded(pid), Started(0));
    case _ => RunningOfTwo(s.processes.Keys, Started(0), Started(0));
  }

  lemma PossibleConcat(start: set<nat>, a: seq<Sync>, b: seq<Sync>)
    requires Possible(start, a) && Possible(Running(start, a), b)
    ensures Possible(start, a + b)
  {
    forall i | 0 <= i < |a + b|
      ensures Enabled(Running(start, (a + b)[..i]), (a + b)[i])
    {
      if i < |a| {
        assert (a + b)[..i] == a[..i];
      } else {
        assert (a + b)[..i] == a + b[..i - |a|];
        RunningConcat(start, a, b[..i - |a|]);
        assert Enabled(Running(Running(start, a), b[..i - |a|]), b[i - |a|]);
      }
    }
  }

  lemma PossibleStep(c: Config, s: System, a: Action)
    ensures Possible(s.processes.Keys, SyncsOf(c, s, a))
  {
    hide PublishCommit, PrepareUnit, DecideUnit, BeginDecision, Restart, AcceptInputs;
    var syncs := SyncsOf(c, s, a);
    if syncs != [] {
      RunningOfTwo(s.processes.Keys, syncs[0], syncs[0]);
      assert syncs[..0] == [];
      assert |syncs| == 2 ==> syncs[..1] == [syncs[0]];
    }
  }

  /** Every history of a run is possible, so the exact conditions below speak of every run. */
  lemma {:induction false} HistoriesArePossible(c: Config, actions: seq<Action>)
    ensures Possible({}, Syncs(c, INITIAL, actions))
  {
    hide Next, SyncsOf, Possible;
    if actions == [] {
      NothingIsPossible();
    } else {
      var earlier, last := actions[..|actions| - 1], actions[|actions| - 1];
      HistoriesArePossible(c, earlier);
      RunningProcesses(c, earlier);
      PossibleStep(c, Run(c, earlier), last);
      PossibleConcat({}, Syncs(c, INITIAL, earlier), SyncsOf(c, Run(c, earlier), last));
    }
  }

  lemma NothingIsPossible()
    ensures Possible({}, [])
  {
  }

  /** In every state of the run, the usage recorded later is at least that recorded earlier. */
  predicate KeepsUsage(c: Config, actions: seq<Action>) {
    forall n, m :: 0 <= n <= m <= |actions| ==> UsageKept(Run(c, actions[..n]).store, Run(c, actions[..m]).store)
  }

  lemma UpToDateRunKeepsUsage(c: Config, actions: seq<Action>)
    requires c.limits.Valid() && UpToDate({}, Syncs(c, INITIAL, actions))
    ensures KeepsUsage(c, actions)
  {
    hide Next, Invariant, UpToDate, UsageKept, SyncsOf, Current;
    InitialIsInvariant();
    forall n, m | 0 <= n <= m <= |actions|
      ensures UsageKept(Run(c, actions[..n]).store, Run(c, actions[..m]).store)
    {
      var a, b, rest := actions[..n], actions[n..m], actions[m..];
      assert actions[..m] == a + b && actions == (a + b) + rest;
      SyncsConcat(c, INITIAL, a + b, rest);
      UpToDateConcat({}, Syncs(c, INITIAL, a + b), Syncs(c, Run(c, a + b), rest));
      SyncsConcat(c, INITIAL, a, b);
      UpToDateConcat({}, Syncs(c, INITIAL, a), Syncs(c, Run(c, a), b));
      StepsConcat(c, INITIAL, a, b);
      StepsKeepInvariant(c, INITIAL, a);
      NothingSynced({});
      StepsKeepCaughtUp(c, INITIAL, a, {});
      StepsKeepCaughtUp(c, Run(c, a), b, Current({}, Syncs(c, INITIAL, a)));
    }
  }

  lemma UnseenRecordLosesUsage(c: Config, s: System, pid: nat)
    requires pid in s.processes && !HasSeen(s.processes[pid].budget, s.store)
    ensures !UsageKept(s.store, Next(c, s, RecordEvaluation(pid)).store)
  {
  }

  lemma LossBetween(c: Config, actions: seq<Action>, n: nat)
    requires n < |actions| && !UsageKept(Run(c, actions[..n]).store, Next(c, Run(c, actions[..n]), actions[n]).store)
    ensures !KeepsUsage(c, actions)
  {
    hide Next, UsageKept;
    StepsOneMore(c, INITIAL, actions[..n], actions[n]);
    assert actions[..n + 1] == actions[..n] + [actions[n]];
    assert !UsageKept(Run(c, actions[..n]).store, Run(c, actions[..n + 1]).store);
  }

  /** A process overtaken before it records loses usage in some run of the history. */
  lemma OvertakenRecordLosesUsage(c: Config, syncs: seq<Sync>, j: nat, x: Usage.BudgetUsage) returns (actions: seq<Action>)
    requires c.limits.Valid() && Affordable(c, x) && Possible({}, syncs)
    requires j < |syncs| && syncs[j].Recorded? && syncs[j].pid !in Current({}, syncs[..j])
    ensures Syncs(c, INITIAL, actions) == syncs && !KeepsUsage(c, actions)
  {
    hide Next, Invariant, SyncsOf, Affordable, HasSeen, Unreserved, KeepsUsage, UsageKept, Current, Running, Syncs, Steps;
    var pid, before, rest := syncs[j].pid, syncs[..j], syncs[j..];
    PossiblePrefix({}, syncs, j);
    PossibleRest({}, syncs, j);
    assert Enabled(Running({}, before), syncs[j]);
    var a := OvertakenRun(c, before, pid, x);
    var s := Run(c, a);
    InitialIsInvariant();
    StepsKeepInvariant(c, INITIAL, a);
    Replay(c, s, rest);
    actions := a + ActionsFor(rest);
    SyncsConcat(c, INITIAL, a, ActionsFor(rest));
    assert before + rest == syncs;
    UnseenRecordLosesUsage(c, s, pid);
    assert actions[..|a|] == a && actions[|a|] == ActionFor(syncs[j]);
    LossBetween(c, actions, |a|);
  }

  /** Recorded usage, exactly. Given who starts, records and ends, and in which order, recorded
      usage never decreases, whatever is spent, prepared and decided in between, if and only if
      every process that records started, or last recorded itself, after the last record by any
      other. If some recorder did not, some run of that history loses any affordable charge. */
  lemma UsageIsKeptIffUpToDate(c: Config, syncs: seq<Sync>, x: Usage.BudgetUsage)
    requires c.limits.Valid() && Affordable(c, x) && Possible({}, syncs)
    ensures (forall actions :: Syncs(c, INITIAL, actions) == syncs ==> KeepsUsage(c, actions)) <==> UpToDate({}, syncs)
  {
    hide KeepsUsage, Affordable, Syncs, Possible;
    if UpToDate({}, syncs) {
      forall actions | Syncs(c, INITIAL, actions) == syncs
        ensures KeepsUsage(c, actions)
      {
        UpToDateRunKeepsUsage(c, actions);
      }
    } else {
      var j :| 0 <= j < |syncs| && syncs[j].Recorded? && syncs[j].pid !in Current({}, syncs[..j]);
      var actions := OvertakenRecordLosesUsage(c, syncs, j, x);
    }
  }

  /** The usage in memory, exactly. A live process has seen what is recorded, whatever was spent,
      if and only if it started, or last recorded itself, after the last record by any other. */
  lemma MemoryCoversRecordIffCurrent(c: Config, syncs: seq<Sync>, pid: nat, x: Usage.BudgetUsage)
    requires c.limits.Valid() && Affordable(c, x) && Possible({}, syncs) && pid in Running({}, syncs)
    ensures (forall actions :: Syncs(c, INITIAL, actions) == syncs ==>
               pid in Run(c, actions).processes && HasSeen(Run(c, actions).processes[pid].budget, Run(c, actions).store))
            <==> pid in Current({}, syncs)
  {
    hide Next, Invariant, HasSeen, Affordable, SyncsOf, Possible;
    if pid in Current({}, syncs) {
      InitialIsInvariant();
      forall actions | Syncs(c, INITIAL, actions) == syncs
        ensures pid in Run(c, actions).processes && HasSeen(Run(c, actions).processes[pid].budget, Run(c, actions).store)
      {
        StepsKeepCaughtUp(c, INITIAL, actions, {});
      }
    } else {
      var actions := OvertakenRun(c, syncs, pid, x);
    }
  }
}
