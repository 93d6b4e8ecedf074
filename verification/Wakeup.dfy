/** Waiting for an operation to finish: waiters sleep on a generation counter that completers
    advance. Every step is one critical section or one store access; waiters and completers
    interleave freely, deadlines pass at any time, and the counter wraps at 64 bits. */
module Wakeup {
  import opened Operation
  import opened Bytes

  type OpId = nat
  type Thread = nat

  /** Where a waiter is in `wait_for_operation_terminal`. `at` is how many notifications had
      happened when it took its snapshot; the snapshot itself is that count cut to 64 bits. */
  datatype Phase =
    | AtTop
    | Snapped(at: nat)
    | Unfinished(at: nat)   // read an unfinished operation before its deadline
    | Blocked(at: nat)      // asleep on the condition variable
    | Woken(at: nat)        // notified, timed out or spuriously awake; about to look again
    | Done(result: Status)

  datatype Waiter = Waiter(op: OpId, expired: bool, phase: Phase)

  /** Where a completer is in `complete_operation`. */
  datatype Progress = Starting | Committed | ReturnedOk | ReturnedErr(committed: bool)

  datatype Completer = Completer(op: OpId, status: Status, progress: Progress)

  datatype State = State(status: map<OpId, Status>, notifies: nat,
                         waiters: map<Thread, Waiter>, completers: map<Thread, Completer>)

  function Generation(notifies: nat): nat { notifies % U64_LIMIT }

  ghost predicate Init(s: State) {
    && s.notifies == 0
    && (forall w | w in s.waiters :: s.waiters[w].phase == AtTop && s.waiters[w].op in s.status)
    && (forall c | c in s.completers :: s.completers[c].progress == Starting && s.completers[c].status.IsTerminal())
  }

  // One waiter's next phase, given the status of its operation and the notifications so far.

  ghost predicate WaiterStep(w: Waiter, status: Status, notifies: nat, phase': Phase) {
    match w.phase
    case AtTop => phase' == Snapped(notifies)
    case Snapped(at) =>
      phase' == if status.IsTerminal() || w.expired then Done(status) else Unfinished(at)
    case Unfinished(at) =>
      phase' == if Generation(notifies) != Generation(at) then AtTop else Blocked(at)
    case Blocked(at) => phase' == Woken(at)
    case Woken(at) =>
      phase' == if Generation(notifies) != Generation(at) || w.expired then AtTop else Blocked(at)
    case Done(_) => false
  }

  ghost predicate Waits(s: State, s': State, t: Thread, phase: Phase) {
    && t in s.waiters && s.waiters[t].op in s.status
    && WaiterStep(s.waiters[t], s.status[s.waiters[t].op], s.notifies, phase)
    && s' == s.(waiters := s.waiters[t := s.waiters[t].(phase := phase)])
  }

  ghost predicate Expires(s: State, s': State, t: Thread) {
    t in s.waiters && s' == s.(waiters := s.waiters[t := s.waiters[t].(expired := true)])
  }

  /** Notifying wakes every sleeper. */
  function Wake(waiters: map<Thread, Waiter>): map<Thread, Waiter> {
    map t | t in waiters ::
      var w := waiters[t]; if w.phase.Blocked? then w.(phase := Woken(w.phase.at)) else w
  }

  function Progressed(s: State, t: Thread, progress: Progress): State
    requires t in s.completers
  {
    s.(completers := s.completers[t := s.completers[t].(progress := progress)])
  }

  ghost predicate Commits(s: State, s': State, t: Thread) {
    && t in s.completers && s.completers[t].progress == Starting
    && var c := s.completers[t];
       if c.op in s.status && s.status[c.op].CanTransitionTo(c.status)
       then s' == Progressed(s, t, Committed).(status := s.status[c.op := c.status])
       else s' == Progressed(s, t, ReturnedErr(false))
  }

  /** Writing the audit row after the commit fails: the caller gets an error, nobody is notified. */
  ghost predicate AuditFails(s: State, s': State, t: Thread) {
    t in s.completers && s.completers[t].progress == Committed && s' == Progressed(s, t, ReturnedErr(true))
  }

  ghost predicate Notifies(s: State, s': State, t: Thread) {
    && t in s.completers && s.completers[t].progress == Committed
    && s' == Progressed(s, t, ReturnedOk).(notifies := s.notifies + 1, waiters := Wake(s.waiters))
  }

  /** Another thread starts the operation. */
  ghost predicate Starts(s: State, s': State, op: OpId) {
    op in s.status && s.status[op].Pending? && s' == s.(status := s.status[op := Running])
  }

  ghost predicate Next(s: State, s': State) {
    || (exists t, phase :: Waits(s, s', t, phase))
    || (exists t :: Expires(s, s', t))
    || (exists t :: Commits(s, s', t) || AuditFails(s, s', t) || Notifies(s, s', t))
    || (exists op :: Starts(s, s', op))
  }

  ghost predicate IsRun(run: seq<State>) {
    run != [] && Init(run[0]) && forall i | 0 <= i < |run| - 1 :: Next(run[i], run[i + 1])
  }

  // The invariant.

  ghost predicate Notified(s: State, op: OpId) {
    exists t :: t in s.completers && s.completers[t].op == op && s.completers[t].progress.ReturnedOk?
  }

  ghost predicate WaiterInv(s: State, w: Waiter) {
    && w.op in s.status
    && match w.phase
       case AtTop => true
       case Snapped(at) => at <= s.notifies
       case Unfinished(at) => at <= s.notifies && (Notified(s, w.op) ==> at < s.notifies)
       case Blocked(at) =>
         && at <= s.notifies && (Notified(s, w.op) ==> at < s.notifies)
         && Generation(s.notifies) == Generation(at)
       case Woken(at) => at <= s.notifies && (Notified(s, w.op) ==> at < s.notifies)
       case Done(result) => result.IsTerminal() || w.expired
  }

  ghost predicate CompleterInv(s: State, c: Completer) {
    && c.status.IsTerminal()
    && (c.progress.Committed? || c.progress.ReturnedOk? || c.progress == ReturnedErr(true) ==>
          c.op in s.status && s.status[c.op].IsTerminal())
  }

  ghost predicate Inv(s: State) {
    && (forall t | t in s.waiters :: WaiterInv(s, s.waiters[t]))
    && (forall t | t in s.completers :: CompleterInv(s, s.completers[t]))
  }

  lemma NotifiedIsTerminal(s: State, op: OpId)
    requires forall t | t in s.completers :: CompleterInv(s, s.completers[t])
    requires Notified(s, op)
    ensures op in s.status && s.status[op].IsTerminal()
  {
  }

  lemma WaitsKeepsInv(s: State, s': State, t: Thread, phase: Phase)
    requires Inv(s) && Waits(s, s', t, phase)
    ensures Inv(s')
  {
    assert WaiterInv(s, s.waiters[t]);
    var op := s.waiters[t].op;
    if Notified(s, op) { NotifiedIsTerminal(s, op); }
    forall o ensures Notified(s', o) == Notified(s, o) {}
    forall u | u in s'.waiters ensures WaiterInv(s', s'.waiters[u]) {
      if u != t { assert WaiterInv(s, s.waiters[u]); }
    }
    forall u | u in s'.completers ensures CompleterInv(s', s'.completers[u]) {
      assert CompleterInv(s, s.completers[u]);
    }
  }

  lemma ExpiresKeepsInv(s: State, s': State, t: Thread)
    requires Inv(s) && Expires(s, s', t)
    ensures Inv(s')
  {
    forall o ensures Notified(s', o) == Notified(s, o) {}
    forall u | u in s'.waiters ensures WaiterInv(s', s'.waiters[u]) {
      assert WaiterInv(s, s.waiters[u]);
    }
    forall u | u in s'.completers ensures CompleterInv(s', s'.completers[u]) {
      assert CompleterInv(s, s.completers[u]);
    }
  }

  lemma CompletesKeepsInv(s: State, s': State, t: Thread)
    requires Inv(s) && (Commits(s, s', t) || AuditFails(s, s', t))
    ensures Inv(s')
  {
    assert CompleterInv(s, s.completers[t]);
    forall o ensures Notified(s', o) ==> Notified(s, o) {
      if Notified(s', o) {
        var u :| u in s'.completers && s'.completers[u].op == o && s'.completers[u].progress.ReturnedOk?;
        assert u != t && s.completers[u] == s'.completers[u];
      }
    }
    forall u | u in s'.waiters ensures WaiterInv(s', s'.waiters[u]) {
      assert WaiterInv(s, s.waiters[u]);
    }
    forall u | u in s'.completers ensures CompleterInv(s', s'.completers[u]) {
      assert CompleterInv(s, s.completers[u]);
    }
  }

  lemma NotifiesKeepsInv(s: State, s': State, t: Thread)
    requires Inv(s) && Notifies(s, s', t)
    ensures Inv(s')
  {
    assert CompleterInv(s, s.completers[t]);
    forall u | u in s'.waiters ensures WaiterInv(s', s'.waiters[u]) {
      assert WaiterInv(s, s.waiters[u]);
    }
    forall u | u in s'.completers ensures CompleterInv(s', s'.completers[u]) {
      assert CompleterInv(s, s.completers[u]);
    }
  }

  lemma StartsKeepsInv(s: State, s': State, op: OpId)
    requires Inv(s) && Starts(s, s', op)
    ensures Inv(s')
  {
    forall o ensures Notified(s', o) == Notified(s, o) {}
    forall u | u in s'.waiters ensures WaiterInv(s', s'.waiters[u]) {
      assert WaiterInv(s, s.waiters[u]);
    }
    forall u | u in s'.completers ensures CompleterInv(s', s'.completers[u]) {
      assert CompleterInv(s, s.completers[u]);
    }
  }

  lemma NextKeepsInv(s: State, s': State)
    requires Inv(s) && Next(s, s')
    ensures Inv(s')
  {
    hide Inv, Waits, Expires, Commits, AuditFails, Notifies, Starts;
    if t, phase :| Waits(s, s', t, phase) {
      WaitsKeepsInv(s, s', t, phase);
    } else if t :| Expires(s, s', t) {
      ExpiresKeepsInv(s, s', t);
    } else if t :| Commits(s, s', t) || AuditFails(s, s', t) {
      CompletesKeepsInv(s, s', t);
    } else if t :| Notifies(s, s', t) {
      NotifiesKeepsInv(s, s', t);
    } else {
      var op :| Starts(s, s', op);
      StartsKeepsInv(s, s', op);
    }
  }

  lemma {:induction false} RunInv(run: seq<State>, i: nat)
    requires IsRun(run) && i < |run|
    ensures Inv(run[i])
  {
    if i > 0 {
      hide Next, Inv;
      RunInv(run, i - 1);
      assert Next(run[i - 1], run[i - 1 + 1]);
      NextKeepsInv(run[i - 1], run[i]);
    }
  }

  /** No lost wakeup: a waiter asleep although its operation was completed and the completer
      returned Ok would have slept through a positive multiple of 2^64 notifications. */
  lemma NoLostWakeup(run: seq<State>, i: nat, t: Thread)
    requires IsRun(run) && i < |run| && t in run[i].waiters
    requires run[i].waiters[t].phase.Blocked? && Notified(run[i], run[i].waiters[t].op)
    ensures run[i].notifies - run[i].waiters[t].phase.at >= U64_LIMIT
  {
    RunInv(run, i);
    assert WaiterInv(run[i], run[i].waiters[t]);
  }

  /** A waiter returns an unfinished operation only after its deadline. */
  lemma UnfinishedOnlyAfterDeadline(run: seq<State>, i: nat, t: Thread)
    requires IsRun(run) && i < |run| && t in run[i].waiters && run[i].waiters[t].phase.Done?
    ensures run[i].waiters[t].phase.result.IsTerminal() || run[i].waiters[t].expired
  {
    RunInv(run, i);
    assert WaiterInv(run[i], run[i].waiters[t]);
  }

  /** How many more steps of its own a waiter can take once its operation was completed. */
  function StepsLeft(phase: Phase): nat {
    match phase
    case AtTop => 2
    case Snapped(_) => 1
    case Done(_) => 0
    case _ => 3
  }

  /** After completion, with fewer than 2^64 notifications, every step a waiter takes brings it
      closer to returning the terminal status: it takes at most three more. */
  lemma CompletionIsSeen(run: seq<State>, i: nat, t: Thread, s': State, phase: Phase)
    requires IsRun(run) && i < |run| && run[i].notifies < U64_LIMIT
    requires t in run[i].waiters && Notified(run[i], run[i].waiters[t].op)
    requires Waits(run[i], s', t, phase)
    ensures StepsLeft(phase) < StepsLeft(run[i].waiters[t].phase)
    ensures phase.Done? ==> phase.result.IsTerminal()
  {
    RunInv(run, i);
    assert WaiterInv(run[i], run[i].waiters[t]);
    NotifiedIsTerminal(run[i], run[i].waiters[t].op);
  }

  // An expired waiter.

  /** How many more steps of its own an expired waiter can take. */
  function ExpiredStepsLeft(phase: Phase): nat {
    match phase
    case Done(_) => 0
    case Snapped(_) => 1
    case AtTop => 2
    case Woken(_) => 3
    case Blocked(_) => 4
    case Unfinished(_) => 5
  }

  ghost predicate OwnStep(s: State, s': State, t: Thread) { exists phase :: Waits(s, s', t, phase) }

  /** A waiter that has not returned can always take a step. */
  lemma WaiterCanStep(run: seq<State>, i: nat, t: Thread) returns (s': State)
    requires IsRun(run) && i < |run| && t in run[i].waiters && !run[i].waiters[t].phase.Done?
    ensures OwnStep(run[i], s', t) && Next(run[i], s')
  {
    RunInv(run, i);
    var s, w := run[i], run[i].waiters[t];
    assert WaiterInv(s, w);
    var changed := !w.phase.AtTop? && Generation(s.notifies) != Generation(w.phase.at);
    var phase := match w.phase
      case AtTop => Snapped(s.notifies)
      case Snapped(at) => if s.status[w.op].IsTerminal() || w.expired then Done(s.status[w.op]) else Unfinished(at)
      case Unfinished(at) => if changed then AtTop else Blocked(at)
      case Blocked(at) => Woken(at)
      case Woken(at) => if changed || w.expired then AtTop else Blocked(at);
    s' := s.(waiters := s.waiters[t := w.(phase := phase)]);
    assert Waits(s, s', t, phase);
  }

  /** Every step it takes brings it closer to returning, and no step of others takes it back. */
  lemma ExpiredStep(s: State, s': State, t: Thread)
    requires Next(s, s') && t in s.waiters && s.waiters[t].expired
    ensures t in s'.waiters && s'.waiters[t].expired
    ensures ExpiredStepsLeft(s'.waiters[t].phase) + (if OwnStep(s, s', t) then 1 else 0)
              <= ExpiredStepsLeft(s.waiters[t].phase)
  {
    if phase :| Waits(s, s', t, phase) {
    } else if u, phase :| Waits(s, s', u, phase) {
      assert u != t;
    }
  }

  /** How many steps of its own a waiter takes from one state of a run to another. */
  ghost function OwnSteps(run: seq<State>, t: Thread, i: nat, j: nat): nat
    requires i <= j < |run|
    decreases j
  {
    if i == j then 0 else OwnSteps(run, t, i, j - 1) + if OwnStep(run[j - 1], run[j], t) then 1 else 0
  }

  /** In every run, a waiter whose deadline has passed takes at most five more steps of its own, and
      after them it has returned. */
  lemma {:induction false} ExpiredReturns(run: seq<State>, t: Thread, i: nat, j: nat)
    requires IsRun(run) && i <= j < |run| && t in run[i].waiters && run[i].waiters[t].expired
    ensures t in run[j].waiters && run[j].waiters[t].expired
    ensures ExpiredStepsLeft(run[j].waiters[t].phase) + OwnSteps(run, t, i, j)
              <= ExpiredStepsLeft(run[i].waiters[t].phase) <= 5
    ensures OwnSteps(run, t, i, j) >= 5 ==> run[j].waiters[t].phase.Done?
    decreases j
  {
    hide Next, OwnStep, Init;
    if i < j {
      ExpiredReturns(run, t, i, j - 1);
      assert Next(run[j - 1], run[j - 1 + 1]);
      ExpiredStep(run[j - 1], run[j], t);
    }
  }

  // Which completers leave a sleeper behind.

  predicate HasCommitted(c: Completer) { c.progress in {Committed, ReturnedOk, ReturnedErr(true)} }

  ghost predicate CommittedBySomeone(s: State, op: OpId) {
    exists t :: t in s.completers && s.completers[t].op == op && HasCommitted(s.completers[t])
  }

  /** A terminal status has a completer that committed it. */
  ghost predicate Explained(s: State) {
    forall op | op in s.status && s.status[op].IsTerminal() :: CommittedBySomeone(s, op)
  }

  ghost predicate StartsUnfinished(s: State) { forall op | op in s.status :: !s.status[op].IsTerminal() }

  lemma StillCommitted(s: State, s': State, op: OpId)
    requires CommittedBySomeone(s, op)
    requires forall t | t in s.completers ::
      && t in s'.completers && s'.completers[t].op == s.completers[t].op
      && (HasCommitted(s.completers[t]) ==> HasCommitted(s'.completers[t]))
    ensures CommittedBySomeone(s', op)
  {
    var t :| t in s.completers && s.completers[t].op == op && HasCommitted(s.completers[t]);
    assert t in s'.completers && s'.completers[t].op == op && HasCommitted(s'.completers[t]);
  }

  lemma CompletersKeepExplained(s: State, s': State, t: Thread)
    requires Explained(s) && (Commits(s, s', t) || AuditFails(s, s', t) || Notifies(s, s', t))
    ensures Explained(s')
  {
    forall op | op in s'.status && s'.status[op].IsTerminal() ensures CommittedBySomeone(s', op) {
      if op in s.status && s.status[op].IsTerminal() {
        StillCommitted(s, s', op);
      } else {
        assert t in s'.completers && s'.completers[t].op == op && HasCommitted(s'.completers[t]);
      }
    }
  }

  lemma NextKeepsExplained(s: State, s': State)
    requires Explained(s) && Next(s, s')
    ensures Explained(s')
  {
    if t :| Commits(s, s', t) || AuditFails(s, s', t) || Notifies(s, s', t) {
      CompletersKeepExplained(s, s', t);
    } else {
      assert s'.completers == s.completers;
      forall op | op in s'.status && s'.status[op].IsTerminal() ensures CommittedBySomeone(s', op) {
        assert op in s.status && s.status[op].IsTerminal();
        StillCommitted(s, s', op);
      }
    }
  }

  lemma {:induction false} RunExplained(run: seq<State>, i: nat)
    requires IsRun(run) && StartsUnfinished(run[0]) && i < |run|
    ensures Explained(run[i])
  {
    if i > 0 {
      hide Next, Explained;
      RunExplained(run, i - 1);
      assert Next(run[i - 1], run[i - 1 + 1]);
      NextKeepsExplained(run[i - 1], run[i]);
    }
  }

  /** With fewer than 2^64 notifications, a waiter sleeps on a terminal operation only while a
      completer of that operation has yet to notify, or has returned an error after its commit. */
  lemma SleepersAwaitACompleter(run: seq<State>, i: nat, t: Thread)
    requires IsRun(run) && StartsUnfinished(run[0]) && i < |run| && run[i].notifies < U64_LIMIT
    requires t in run[i].waiters && run[i].waiters[t].phase.Blocked?
    requires var op := run[i].waiters[t].op; op in run[i].status && run[i].status[op].IsTerminal()
    ensures exists c ::
      && c in run[i].completers && run[i].completers[c].op == run[i].waiters[t].op
      && run[i].completers[c].progress in {Committed, ReturnedErr(true)}
    ensures forall c | c in run[i].completers && run[i].completers[c].op == run[i].waiters[t].op ::
      !run[i].completers[c].progress.ReturnedOk?
  {
    RunExplained(run, i);
    hide Next;
    if Notified(run[i], run[i].waiters[t].op) { NoLostWakeup(run, i, t); }
    var c :| && c in run[i].completers && run[i].completers[c].op == run[i].waiters[t].op
             && HasCommitted(run[i].completers[c]);
    assert run[i].completers[c].progress in {Committed, ReturnedErr(true)};
  }

  // One waiter and one completer of one operation.

  function Pair(status: Status, phase: Phase, progress: Progress): State {
    State(map[0 := status], 0, map[2 := Waiter(0, false, phase)], map[1 := Completer(0, Status.Failed, progress)])
  }

  lemma PairWaits(status: Status, phase: Phase, progress: Progress, phase': Phase)
    requires WaiterStep(Waiter(0, false, phase), status, 0, phase')
    ensures Next(Pair(status, phase, progress), Pair(status, phase', progress))
  {
    assert Waits(Pair(status, phase, progress), Pair(status, phase', progress), 2, phase');
  }

  lemma PairCompletes(phase: Phase)
    ensures Next(Pair(Running, phase, Starting), Pair(Status.Failed, phase, Committed))
    ensures Next(Pair(Status.Failed, phase, Committed), Pair(Status.Failed, phase, ReturnedErr(true)))
  {
    assert Commits(Pair(Running, phase, Starting), Pair(Status.Failed, phase, Committed), 1);
    assert AuditFails(Pair(Status.Failed, phase, Committed), Pair(Status.Failed, phase, ReturnedErr(true)), 1);
  }

  lemma Extend(run: seq<State>, s: State)
    requires IsRun(run) && Next(run[|run| - 1], s)
    ensures IsRun(run + [s])
  {
    hide Next, Init;
  }

  lemma PairStart() returns (run: seq<State>)
    ensures run == [Pair(Running, AtTop, Starting)] && IsRun(run)
  {
    hide Next;
    run := [Pair(Running, AtTop, Starting)];
  }

  /** The Ok matters: when the audit write fails after the commit, the operation is terminal, the
      completer has returned an error, no notification is due, and a waiter is asleep. */
  lemma FailedAuditLeavesSleeper() returns (run: seq<State>)
    ensures IsRun(run) && run[|run| - 1] == Pair(Status.Failed, Blocked(0), ReturnedErr(true))
  {
    hide Next;
    PairWaits(Running, AtTop, Starting, Snapped(0));
    PairWaits(Running, Snapped(0), Starting, Unfinished(0));
    PairWaits(Running, Unfinished(0), Starting, Blocked(0));
    PairCompletes(Blocked(0));
    run := PairStart();
    hide Init, Pair, IsRun;
    Extend(run, Pair(Running, Snapped(0), Starting));
    run := run + [Pair(Running, Snapped(0), Starting)];
    Extend(run, Pair(Running, Unfinished(0), Starting));
    run := run + [Pair(Running, Unfinished(0), Starting)];
    Extend(run, Pair(Running, Blocked(0), Starting));
    run := run + [Pair(Running, Blocked(0), Starting)];
    Extend(run, Pair(Status.Failed, Blocked(0), Committed));
    run := run + [Pair(Status.Failed, Blocked(0), Committed)];
    Extend(run, Pair(Status.Failed, Blocked(0), ReturnedErr(true)));
    run := run + [Pair(Status.Failed, Blocked(0), ReturnedErr(true))];
  }
}
