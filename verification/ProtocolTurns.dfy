/** Who agrees with the approval store, as a matter of the history alone. A policy is held in the
    memory of a process, on the record, or in the note of a waiting unit, and moves between them
    by being copied: on a start, a record, the beginning of a unit and a rollback. */
module ProtocolTurns {
  import opened Wrappers
  import opened Ledgers
  import opened Revisions
  import opened Protocol
  import opened ProtocolInvariant
  import opened ProtocolRuns
  import opened ProtocolAgreement

  datatype Holder = InMemory(pid: nat) | OnRecord | InNote(flight: nat)

  function HeldBy(s: System, h: Holder): Option<Policy> {
    match h
    case InMemory(pid) => if pid in s.processes then Some(s.processes[pid].policy) else None
    case OnRecord => s.store.savedPolicy
    case InNote(flight) => if flight in s.flights then s.flights[flight].note else None
  }

  /** What matters of a run: which policy was copied where, and which engine took a preparation or
      a decision of which request, evicting which others. */
  datatype Turn =
    | Copied(from: Holder, to: Holder)
    | Opened(pid: nat, request: RequestId, evicted: set<RequestId>)
    | Resolved(pid: nat, request: RequestId, evicted: set<RequestId>)

  predicate Begins(s: System, a: Action) {
    a.OpenUnit? && a.flight in s.flights && s.flights[a.flight].note.None? && s.flights[a.flight].pid in s.processes
  }

  predicate Starts(c: Config, s: System, a: Action) {
    a.Launch? && a.pid !in s.processes && Restart(s.store, Defaults(c)).Ok?
  }

  predicate Records(s: System, a: Action) {
    (a.RecordEvaluation? || a.Close?) && a.pid in s.processes
  }

  function UnitTurn(f: Flight, evicted: set<RequestId>): Turn {
    if f.Preparing? then Opened(f.pid, f.derived.requestId, evicted) else Resolved(f.pid, f.derived.requestId, evicted)
  }

  /** A unit that commits ends by recording the policy of its process. */
  function TurnsOf(c: Config, s: System, a: Action): seq<Turn> {
    if Commits(s, a) then [UnitTurn(s.flights[a.flight], a.evicted), Copied(InMemory(s.flights[a.flight].pid), OnRecord)]
    else if PutsBack(s, a) then [Copied(InNote(a.flight), InMemory(s.flights[a.flight].pid))]
    else if Begins(s, a) then [Copied(InMemory(s.flights[a.flight].pid), InNote(a.flight))]
    else if Starts(c, s, a) then [Copied(OnRecord, InMemory(a.pid))]
    else if Records(s, a) then [Copied(InMemory(a.pid), OnRecord)]
    else []
  }

  function Turns(c: Config, actions: seq<Action>): seq<Turn> {
    if actions == [] then []
    else
      var earlier := actions[..|actions| - 1];
      Turns(c, earlier) + TurnsOf(c, Run(c, earlier), actions[|actions| - 1])
  }

  // ----- What a holder tracks and has missed, from the history -----

  datatype View = View(tracked: set<RequestId>, missed: set<RequestId>)

  /** What the holder's policy holds, from what every holder's did before the turn: a copy takes
      the other's, the engine that took the unit tracks its request and forgets what it evicts,
      and everyone else who tracks a request decided there has missed it. */
  function Turned(turn: Turn, h: Holder, before: View, other: View): View {
    match turn
    case Copied(_, to) => if h == to then other else before
    case Opened(pid, request, evicted) => if h == InMemory(pid) then Tracking(before, request, evicted) else before
    case Resolved(pid, request, evicted) =>
      if h == InMemory(pid) then Tracking(before, request, evicted)
      else View(before.tracked, before.missed + (if request in before.tracked then {request} else {}))
  }

  function Tracking(before: View, request: RequestId, evicted: set<RequestId>): View {
    View(before.tracked - evicted + {request}, before.missed - (evicted - {request}))
  }

  /** The holder that held, before the turn, what this one holds after it. */
  function Source(turn: Turn, h: Holder): Holder {
    if turn.Copied? && turn.to == h then turn.from else h
  }

  function ViewAfter(turns: seq<Turn>, h: Holder): View {
    if turns == [] then View({}, {})
    else
      var earlier, last := turns[..|turns| - 1], turns[|turns| - 1];
      Turned(last, h, ViewAfter(earlier, h), ViewAfter(earlier, Source(last, h)))
  }

  lemma ViewOneMore(turns: seq<Turn>, t: Turn, h: Holder)
    ensures ViewAfter(turns + [t], h) == Turned(t, h, ViewAfter(turns, h), ViewAfter(turns, Source(t, h)))
  {
    hide Turned;
    assert (turns + [t])[..|turns|] == turns;
  }

  // ----- The history tells what every holder holds -----

  function Seen(policy: Option<Policy>, approvals: map<RequestId, Approval>): View {
    if policy.None? then View({}, {}) else View(policy.value.status.Keys, Missed(policy.value, approvals))
  }

  /** Nobody needs to know about engines and notes that are gone; a record that was never made
      holds nothing. */
  predicate Lasting(s: System, h: Holder) {
    HeldBy(s, h).Some? || h.OnRecord?
  }

  ghost predicate Told(s: System, turns: seq<Turn>) {
    forall h :: Lasting(s, h) ==> Seen(HeldBy(s, h), s.store.approvals) == ViewAfter(turns, h)
  }

  function StatusOf(policy: Option<Policy>): map<RequestId, Status> {
    if policy.None? then map[] else policy.value.status
  }

  lemma SeenByStatus(a: Option<Policy>, b: Option<Policy>, approvals: map<RequestId, Approval>)
    requires StatusOf(a) == StatusOf(b)
    ensures Seen(a, approvals) == Seen(b, approvals)
  {
    var none: map<RequestId, Status> := map[];
    assert none.Keys == {};
    assert a.None? && b.Some? ==> Missed(b.value, approvals) == {};
    assert a.Some? && b.None? ==> Missed(a.value, approvals) == {};
  }

  /** The holder whose policy this one has after a step that commits no unit. */
  function QuietSource(turns: seq<Turn>, h: Holder): Holder {
    if turns == [] then h else Source(turns[0], h)
  }

  lemma QuietEngine(c: Config, s: System, a: Action, pid: nat)
    requires !Commits(s, a) && pid in Next(c, s, a).processes
    ensures var source := QuietSource(TurnsOf(c, s, a), InMemory(pid));
            Lasting(s, source) && Next(c, s, a).processes[pid].policy.status == StatusOf(HeldBy(s, source))
  {
    hide Next, UnitCommits, Restart;
    if a.FailUnit? || IsUnit(a) {
      FailureStep(c, s, a, pid);
    } else {
      QuietStep(c, s, a, pid);
    }
  }

  lemma QuietNote(c: Config, s: System, a: Action, flight: nat)
    requires !Commits(s, a) && flight in Next(c, s, a).flights && Next(c, s, a).flights[flight].note.Some?
    ensures var source := QuietSource(TurnsOf(c, s, a), InNote(flight));
            Lasting(s, source) && Next(c, s, a).flights[flight].note.value.status == StatusOf(HeldBy(s, source))
  {
    hide PrepareUnit, DecideUnit, BeginDecision, PublishCommit, AcceptInputs, Restart;
  }

  lemma QuietRecorded(c: Config, s: System, a: Action)
    requires !Commits(s, a)
    ensures Next(c, s, a).store.approvals == s.store.approvals
    ensures var source := QuietSource(TurnsOf(c, s, a), OnRecord);
            Lasting(s, source) && StatusOf(Next(c, s, a).store.savedPolicy) == StatusOf(HeldBy(s, source))
  {
    QuietRecord(c, s, a);
    hide Next, Restart, UnitCommits;
  }

  lemma QuietTold(c: Config, s: System, a: Action, turns: seq<Turn>)
    requires !Commits(s, a) && Told(s, turns)
    ensures Told(Next(c, s, a), turns + TurnsOf(c, s, a))
  {
    hide Next, Restart, UnitCommits, Seen, ViewAfter, StatusOf, Lasting;
    var after, more := Next(c, s, a), TurnsOf(c, s, a);
    QuietRecorded(c, s, a);
    forall h | Lasting(after, h)
      ensures Seen(HeldBy(after, h), after.store.approvals) == ViewAfter(turns + more, h)
    {
      QuietHolder(c, s, a, h);
      var source := QuietSource(more, h);
      SeenByStatus(HeldBy(after, h), HeldBy(s, source), s.store.approvals);
      if more == [] {
        assert turns + more == turns;
      } else {
        ViewOneMore(turns, more[0], h);
      }
    }
  }

  lemma QuietHolder(c: Config, s: System, a: Action, h: Holder)
    requires !Commits(s, a) && Lasting(Next(c, s, a), h)
    ensures var source := QuietSource(TurnsOf(c, s, a), h);
            Lasting(s, source) && StatusOf(HeldBy(Next(c, s, a), h)) == StatusOf(HeldBy(s, source))
  {
    hide Next, Restart, UnitCommits, Begins, Starts, Records, PutsBack;
    match h
    case InMemory(pid) => QuietEngine(c, s, a, pid);
    case OnRecord => QuietRecorded(c, s, a);
    case InNote(flight) => QuietNote(c, s, a, flight);
  }

  // ----- Units that commit -----

  lemma UnitTracks(store: Store, process: Process, d: Derived, verdict: Verdict, actor: string, evicted: set<RequestId>)
    ensures var u := PrepareUnit(store, process, d, evicted);
            u.result.Ok? ==> u.policy.status.Keys == process.policy.status.Keys - evicted + {d.requestId} && u.store.savedPolicy == Some(u.policy)
    ensures var u := DecideUnit(store, process, d, verdict, actor, evicted);
            u.result.Ok? ==> u.policy.status.Keys == process.policy.status.Keys - evicted + {d.requestId} && u.store.savedPolicy == Some(u.policy)
  {
    hide CompareAndSwap, Undecided;
  }

  lemma RequestIsNotMissed(store: Store, process: Process, d: Derived, verdict: Verdict, actor: string, evicted: set<RequestId>)
    ensures PrepareUnit(store, process, d, evicted).result.Ok? ==> d.requestId !in Missed(process.policy, store.approvals)
    ensures DecideUnit(store, process, d, verdict, actor, evicted).result.Ok? ==> d.requestId !in Missed(process.policy, store.approvals)
  {
    hide CompareAndSwap;
  }

  predicate HoldsAfterUnit(s: System, after: System, turn: Turn, h: Holder) {
    var before := Seen(HeldBy(s, h), s.store.approvals);
    Lasting(s, h) && Seen(HeldBy(after, h), after.store.approvals) == Turned(turn, h, before, before)
  }

  lemma PreparationTold(c: Config, s: System, flight: nat, evicted: set<RequestId>, h: Holder)
    requires Commits(s, FinishPrepare(flight, evicted))
    requires !h.OnRecord? && Lasting(Next(c, s, FinishPrepare(flight, evicted)), h)
    ensures HoldsAfterUnit(s, Next(c, s, FinishPrepare(flight, evicted)), UnitTurn(s.flights[flight], evicted), h)
  {
    hide Next, PrepareUnit, DecideUnit, Missed;
    var f := s.flights[flight];
    CommittedPreparation(c, s, flight, evicted);
    UnitTracks(s.store, s.processes[f.pid], f.derived, Approve, "", evicted);
    RequestIsNotMissed(s.store, s.processes[f.pid], f.derived, Approve, "", evicted);
    PreparingMisses(s.store, s.processes[f.pid], HeldBy(s, h).value, f.derived, evicted);
  }

  lemma DecisionTold(c: Config, s: System, flight: nat, evicted: set<RequestId>, h: Holder)
    requires Invariant(s) && Commits(s, FinishDecision(flight, evicted))
    requires !h.OnRecord? && Lasting(Next(c, s, FinishDecision(flight, evicted)), h)
    ensures HoldsAfterUnit(s, Next(c, s, FinishDecision(flight, evicted)), UnitTurn(s.flights[flight], evicted), h)
  {
    hide Next, PrepareUnit, DecideUnit, Missed, Invariant, NeverAhead;
    var f := s.flights[flight];
    CommittedDecision(c, s, flight, evicted);
    UnitTracks(s.store, s.processes[f.pid], f.derived, f.verdict, f.actor, evicted);
    RequestIsNotMissed(s.store, s.processes[f.pid], f.derived, f.verdict, f.actor, evicted);
    HoldersAreNeverAhead(s, h);
    EnginesAreNeverAhead(s);
    DecidingMisses(s.store, s.processes[f.pid], HeldBy(s, h).value, f.derived, f.verdict, f.actor, evicted);
  }

  lemma HoldersAreNeverAhead(s: System, h: Holder)
    requires Invariant(s) && HeldBy(s, h).Some?
    ensures NeverAhead(HeldBy(s, h).value, s.store.approvals)
  {
    hide SoundBudget, NeverAhead, FlightsDerived, DecisionsRecorded, OutcomesRecorded, CreationsRecorded, ConflictsAreReal, Chained;
  }

  lemma UnitTold(c: Config, s: System, a: Action, turns: seq<Turn>)
    requires Invariant(s) && Commits(s, a) && Told(s, turns)
    ensures Told(Next(c, s, a), turns + TurnsOf(c, s, a))
  {
    hide Next, Invariant, UnitCommits, Seen, ViewAfter, Turned;
    CommitsInProcess(s, a);
    var after, f := Next(c, s, a), s.flights[a.flight];
    var turn, record := UnitTurn(f, a.evicted), Copied(InMemory(f.pid), OnRecord);
    assert turns + TurnsOf(c, s, a) == turns + [turn] + [record];
    UnitRecords(c, s, a);
    forall h | Lasting(after, h)
      ensures Seen(HeldBy(after, h), after.store.approvals) == ViewAfter(turns + [turn] + [record], h)
    {
      var source := Source(record, h);
      if a.FinishPrepare? {
        PreparationTold(c, s, a.flight, a.evicted, source);
      } else {
        DecisionTold(c, s, a.flight, a.evicted, source);
      }
      ViewOneMore(turns, turn, source);
      ViewOneMore(turns + [turn], record, h);
      CopyIsTheOther(record, h, ViewAfter(turns + [turn], h), ViewAfter(turns + [turn], source));
    }
  }

  lemma CopyIsTheOther(t: Turn, h: Holder, before: View, other: View)
    requires t.Copied? && (Source(t, h) == h ==> before == other)
    ensures Turned(t, h, before, other) == other
  {
  }

  lemma {:induction false} RunIsTold(c: Config, actions: seq<Action>)
    requires c.limits.Valid()
    ensures Invariant(Run(c, actions)) && Told(Run(c, actions), Turns(c, actions))
  {
    hide Next, Invariant, UnitCommits, TurnsOf, Told, Commits;
    if actions == [] {
      InitialIsInvariant();
      NothingIsTold();
    } else {
      var earlier, last := actions[..|actions| - 1], actions[|actions| - 1];
      RunIsTold(c, earlier);
      StepKeepsInvariant(c, Run(c, earlier), last);
      if Commits(Run(c, earlier), last) {
        UnitTold(c, Run(c, earlier), last, Turns(c, earlier));
      } else {
        QuietTold(c, Run(c, earlier), last, Turns(c, earlier));
      }
    }
  }

  lemma NothingIsTold()
    ensures Told(INITIAL, [])
  {
  }

  // ----- Who has missed what -----

  /** The holder, after the first `n` turns, of what this one holds after all of them. */
  function Carrier(turns: seq<Turn>, h: Holder, n: nat): Holder
    requires n <= |turns|
  {
    if n == |turns| then h else Carrier(turns[..|turns| - 1], Source(turns[|turns| - 1], h), n)
  }

  /** Turn `k` was taken by the engine that then held this policy. */
  predicate Own(turns: seq<Turn>, h: Holder, k: nat)
    requires k < |turns|
  {
    !turns[k].Copied? && Carrier(turns, h, k + 1) == InMemory(turns[k].pid)
  }

  predicate Kept(turns: seq<Turn>, h: Holder, request: RequestId, k: nat)
    requires k < |turns|
  {
    Own(turns, h, k) ==> request !in turns[k].evicted - {turns[k].request}
  }

  predicate KeptSince(turns: seq<Turn>, h: Holder, request: RequestId, n: nat) {
    forall k :: n <= k < |turns| ==> Kept(turns, h, request, k)
  }

  /** The policy came to track the request in turn `n` and was never made to forget it since. */
  predicate TrackedSince(turns: seq<Turn>, h: Holder, request: RequestId, n: nat)
    requires n < |turns|
  {
    Own(turns, h, n) && turns[n].request == request && KeptSince(turns, h, request, n)
  }

  /** In turn `n` an engine that did not hold this policy decided the request. */
  predicate DecidedElsewhere(turns: seq<Turn>, h: Holder, request: RequestId, n: nat)
    requires n < |turns|
  {
    turns[n].Resolved? && turns[n].request == request && !Own(turns, h, n)
  }

  predicate Tracks(turns: seq<Turn>, h: Holder, request: RequestId) {
    exists n :: 0 <= n < |turns| && TrackedSince(turns, h, request, n)
  }

  /** The policy came to track the request, an engine that did not hold the policy decided it
      afterwards, and the policy has not been made to forget it. */
  predicate Misses(turns: seq<Turn>, h: Holder, request: RequestId) {
    exists n, m :: 0 <= n < m < |turns| && TrackedSince(turns, h, request, n) && DecidedElsewhere(turns, h, request, m)
  }

  /** The last turn aside, the history of a policy is that of its source before it. */
  lemma BeforeTheLast(turns: seq<Turn>, h: Holder, request: RequestId, k: nat)
    requires k < |turns| - 1
    ensures var n := |turns| - 1;
            var earlier, source := turns[..n], Source(turns[n], h);
            && Own(turns, h, k) == Own(earlier, source, k)
            && (TrackedSince(turns, h, request, k) <==> TrackedSince(earlier, source, request, k) && Kept(turns, h, request, n))
            && (DecidedElsewhere(turns, h, request, k) <==> DecidedElsewhere(earlier, source, request, k))
  {
    hide Source;
    var n := |turns| - 1;
    var earlier, source := turns[..n], Source(turns[n], h);
    forall i | 0 <= i < n
      ensures Own(turns, h, i) == Own(earlier, source, i) && Kept(turns, h, request, i) == Kept(earlier, source, request, i)
    {
      assert earlier[i] == turns[i];
    }
    if TrackedSince(turns, h, request, k) {
      assert forall i :: k <= i < n ==> Kept(turns, h, request, i);
    }
    if TrackedSince(earlier, source, request, k) && Kept(turns, h, request, n) {
      assert forall i :: k <= i < n ==> Kept(earlier, source, request, i);
    }
  }

  lemma {:induction false} TrackedIffOpened(turns: seq<Turn>, h: Holder, request: RequestId)
    ensures request in ViewAfter(turns, h).tracked <==> Tracks(turns, h, request)
  {
    if turns != [] {
      hide TrackedSince, DecidedElsewhere;
      var n := |turns| - 1;
      var earlier, last := turns[..n], turns[n];
      var source := Source(last, h);
      TrackedIffOpened(earlier, source, request);
      forall k | 0 <= k < n
        ensures TrackedSince(turns, h, request, k) <==> TrackedSince(earlier, source, request, k) && Kept(turns, h, request, n)
      {
        BeforeTheLast(turns, h, request, k);
      }
      LastTurn(turns, h, request);
      if Tracks(earlier, source, request) && Kept(turns, h, request, n) {
        var k :| 0 <= k < n && TrackedSince(earlier, source, request, k);
        assert TrackedSince(turns, h, request, k);
      }
    }
  }

  lemma LastTurn(turns: seq<Turn>, h: Holder, request: RequestId)
    requires turns != []
    ensures var n := |turns| - 1;
            && Own(turns, h, n) == (!turns[n].Copied? && h == InMemory(turns[n].pid))
            && (TrackedSince(turns, h, request, n) <==> Own(turns, h, n) && turns[n].request == request)
  {
  }

  /** What a policy has missed, in terms of the history. */
  lemma {:induction false} MissedIffDecidedElsewhere(turns: seq<Turn>, h: Holder, request: RequestId)
    ensures request in ViewAfter(turns, h).missed <==> Misses(turns, h, request)
  {
    if turns != [] {
      hide TrackedSince;
      var n := |turns| - 1;
      var earlier, last := turns[..n], turns[n];
      var source := Source(last, h);
      MissedIffDecidedElsewhere(earlier, source, request);
      TrackedIffOpened(earlier, source, request);
      LastTurn(turns, h, request);
      forall k | 0 <= k < n
        ensures TrackedSince(turns, h, request, k) <==> TrackedSince(earlier, source, request, k) && Kept(turns, h, request, n)
        ensures DecidedElsewhere(turns, h, request, k) <==> DecidedElsewhere(earlier, source, request, k)
      {
        BeforeTheLast(turns, h, request, k);
      }
      if Misses(earlier, source, request) && Kept(turns, h, request, n) {
        var j, k :| 0 <= j < k < n && TrackedSince(earlier, source, request, j) && DecidedElsewhere(earlier, source, request, k);
        assert TrackedSince(turns, h, request, j) && DecidedElsewhere(turns, h, request, k);
      }
      if Tracks(earlier, source, request) && DecidedElsewhere(turns, h, request, n) {
        var j :| 0 <= j < n && TrackedSince(earlier, source, request, j);
        assert TrackedSince(turns, h, request, j);
      }
    }
  }

  /** Agreement, exactly. After any run, the policy of a process, of the record or of a note agrees
      with the approval store if and only if no request that it came to track, wherever it was
      held at the time, was decided afterwards by an engine that did not hold it, and has not been
      evicted from it since. */
  lemma AgreesIffNothingDecidedElsewhere(c: Config, actions: seq<Action>, h: Holder)
    requires c.limits.Valid() && HeldBy(Run(c, actions), h).Some?
    ensures var s := Run(c, actions);
            Agrees(HeldBy(s, h).value, s.store.approvals) <==> forall request :: !Misses(Turns(c, actions), h, request)
  {
    RunIsTold(c, actions);
    hide Run, Turns, Misses, ViewAfter, NeverAhead, Invariant, Agrees, Missed;
    var s, turns := Run(c, actions), Turns(c, actions);
    HoldersAreNeverAhead(s, h);
    AgreesIffNothingMissed(HeldBy(s, h).value, s.store.approvals);
    assert Lasting(s, h);
    forall request
      ensures request in Missed(HeldBy(s, h).value, s.store.approvals) <==> Misses(turns, h, request)
    {
      MissedIffDecidedElsewhere(turns, h, request);
    }
  }
}
