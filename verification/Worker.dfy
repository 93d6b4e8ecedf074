/** The reconciliation worker: claiming an operation, completing it, containing every failure in
    between, and draining the operations a crash left behind. */
module Worker {
  import opened Operation
  import opened Basics
  import opened Tables
  import opened StoreSteps
  import opened StoreRuns
  import S = SqliteStore

  /** Which store accesses succeed, by the order in which one handling makes them: reads, status
      transitions, audit rows outside a transaction, and the purge transaction. */
  datatype Io = Io(read: nat -> bool, transition: nat -> bool, audit: nat -> bool, purge: nat -> bool)

  ghost predicate AllSucceed(io: Io) { forall n: nat :: io.read(n) && io.transition(n) && io.audit(n) }

  /** What reconciling the agent's process ends with: an error, or a status to complete with. */
  datatype Effect = Fails | Ends(status: Status, error: Option<string>)

  /** What other threads do to the store meanwhile: operations may be added and may lose their agent,
      but only the worker moves them along. */
  ghost predicate Meanwhile(db: Tables, db': Tables) {
    && (forall o | o in db.operations :: o in db'.operations && SameStatus(db.operations[o], db'.operations[o]))
    && db.audits <= db'.audits
  }

  ghost predicate SameStatus(row: OperationRow, row': OperationRow) {
    && row'.status == row.status && row'.kind == row.kind && row'.error == row.error
    && (row'.agent == row.agent || row'.agent == None)
  }

  /** Other threads, by the point at which they act. */
  ghost predicate Harmless(others: nat -> Tables -> Tables) {
    forall k: nat, db: Tables :: Meanwhile(db, others(k)(db))
  }

  /** Only `op` moved, and it moved forward. */
  ghost predicate Moved(db: Tables, db': Tables, op: OpId) {
    forall o | o in db.operations :: o in db'.operations &&
      if o == op then Forward(db.operations[o], db'.operations[o]) else SameStatus(db.operations[o], db'.operations[o])
  }

  ghost predicate Forward(row: OperationRow, row': OperationRow) {
    && row'.kind == row.kind && row.status.Progress() <= row'.status.Progress()
    && (row.status.IsTerminal() ==> row'.status == row.status && row'.error == row.error)
  }

  lemma MovedTransitive(a: Tables, b: Tables, c: Tables, op: OpId)
    requires Moved(a, b, op) && Moved(b, c, op)
    ensures Moved(a, c, op)
  {
    forall o | o in a.operations ensures o in c.operations &&
      if o == op then Forward(a.operations[o], c.operations[o]) else SameStatus(a.operations[o], c.operations[o])
    {
      assert o in b.operations;
    }
  }

  lemma MeanwhileMoved(a: Tables, b: Tables, op: OpId)
    requires Meanwhile(a, b)
    ensures Moved(a, b, op)
  {
  }

  predicate StatusIs(db: Tables, op: OpId, status: Status) {
    op in db.operations && db.operations[op].status == status
  }

  predicate EndsWith(db: Tables, op: OpId, status: Status, error: Option<string>) {
    StatusIs(db, op, status) && db.operations[op].error == error
  }

  predicate Terminal(db: Tables, op: OpId) { op in db.operations && db.operations[op].status.IsTerminal() }

  /** A transaction that other threads may run keeps statuses, whatever it does. */
  lemma OthersKeepStatuses(db: Tables, db': Tables, step: Step)
    requires Next(db, db', step) && !step.Transition? && !step.CompletePurge?
    ensures Meanwhile(db, db')
  {
    StepIsLater(db, db', step);
    forall o | o in db.operations ensures o in db'.operations && SameStatus(db.operations[o], db'.operations[o]) {
      if step.Submit? {
        SubmitKeepsRow(db, db', step, o);
      } else if step.RemoveCommunity? {
        RemovalKeepsRow(db, db', step, o);
      } else {
        assert db'.operations == db.operations;
      }
    }
    hide Next;
  }

  /** Other threads act between two accesses of the worker. */
  method Interleave(store: S.SqliteStore, others: nat -> Tables -> Tables, k: nat, ghost op: OpId)
    requires Harmless(others)
    modifies store
    ensures store.db == others(k)(old(store.db))
    ensures Meanwhile(old(store.db), store.db) && Moved(old(store.db), store.db, op)
  {
    store.db := others(k)(store.db);
    MeanwhileMoved(old(store.db), store.db, op);
  }

  method StartOperation(store: S.SqliteStore, op: OpId, others: nat -> Tables -> Tables, now: int, io: Io, n: nat)
    returns (ok: bool)
    requires Harmless(others)
    modifies store
    ensures Moved(old(store.db), store.db, op)
    ensures io.read(n) && io.transition(n) && StatusIs(old(store.db), op, Pending) ==> StatusIs(store.db, op, Running)
    ensures op in old(store.db).operations ==>
      && op in store.db.operations
      && (StatusIs(store.db, op, old(store.db).operations[op].status) || StatusIs(store.db, op, Running))
    ensures ok ==> StatusIs(store.db, op, Running) && Started(op) in store.db.audits
    ensures io.read(n) && io.transition(n) && io.audit(n) && StatusIs(old(store.db), op, Pending) ==> ok
  {
    if !io.read(n) || op !in store.db.operations { return false; }
    Interleave(store, others, 2 * n, op);
    ghost var db1 := store.db;
    var r := store.TransitionOperation(op, Running, None, now, io.transition(n));
    ghost var db2 := store.db;
    TransitionMoves(db1, db2, op, Running, None, now, r.Ok?);
    MovedTransitive(old(store.db), db1, db2, op);
    if r.Err? { return false; }
    Interleave(store, others, 2 * n + 1, op);
    ghost var db3 := store.db;
    MovedTransitive(old(store.db), db2, db3, op);
    var audited := store.AppendAudit(Started(op), io.audit(n));
    assert store.db.operations == db3.operations;
    return audited.Ok?;
  }

  lemma TransitionMoves(db: Tables, db': Tables, op: OpId, next: Status, error: Option<string>, now: int, ok: bool)
    requires TransitionStep(db, db', op, next, error, now, ok)
    ensures Moved(db, db', op)
    ensures ok ==> StatusIs(db', op, next) && db'.operations[op].error == error
    ensures !ok ==> db' == db
  {
  }

  lemma PurgeMoves(db: Tables, db': Tables, a: AgentId, op: OpId, now: int, ok: bool)
    requires PurgeStep(db, db', a, op, now, ok)
    ensures Moved(db, db', op)
    ensures ok ==> EndsWith(db', op, Succeeded, None) && a in db'.tombstones && a !in db'.agents
    ensures ok ==> Completed(op, true) in db'.audits
    ensures !ok ==> db' == db
  {
    if ok {
      PurgedTables(db, a, op, now);
      assert op in db.operations && db.operations[op].status.Running?;
      hide Purged, CanPurge;
      assert db'.audits[|db.audits|] == Completed(op, true);
    }
  }

  /** The guards of a purge: the agent named by the operation is there when the operation is read, and
      the transaction, on the tables that other threads left by then, succeeds. */
  predicate PurgeGoes(db: Tables, db': Tables, op: OpId, purge: bool) {
    && op in db.operations && db.operations[op].agent.Some? && db.operations[op].agent.value in db.agents
    && purge && CanPurge(db', db.operations[op].agent.value, op)
  }

  /** Completion as the application routes it: the success of a purge is one transaction with the
      tombstone; everything else is a transition followed by its audit row. */
  method CompleteOperation(store: S.SqliteStore, op: OpId, status: Status, error: Option<string>,
                           others: nat -> Tables -> Tables, now: int, io: Io, n: nat)
    returns (ok: bool)
    requires Harmless(others)
    modifies store
    ensures Moved(old(store.db), store.db, op)
    ensures ok ==> StatusIs(store.db, op, status) && status.IsTerminal()
    ensures ok ==> Completed(op, status == Succeeded) in store.db.audits
    ensures op in old(store.db).operations ==>
      var row := old(store.db).operations[op];
      if status == Succeeded && row.kind.PurgeAgent?
      then && (ok <==> io.read(n) && PurgeGoes(old(store.db), others(2 * n)(old(store.db)), op, io.purge(n)))
           && (ok ==> EndsWith(store.db, op, Succeeded, None))
           && (!ok ==> StatusIs(store.db, op, row.status))
      else && (status.IsTerminal() && io.read(n) && io.transition(n) && io.audit(n) && row.status.Running? ==> ok)
           && (store.db.operations[op].status != row.status ==> EndsWith(store.db, op, status, error))
           && (ok ==> EndsWith(store.db, op, status, error))
    ensures op in old(store.db).operations ==>
      && op in store.db.operations
      && (StatusIs(store.db, op, old(store.db).operations[op].status) || StatusIs(store.db, op, status))
    ensures io.read(n) && io.transition(n) && StatusIs(old(store.db), op, Running) ==>
      status == Status.Failed || status == Cancelled ==> StatusIs(store.db, op, status)
    ensures op in old(store.db).operations && !Terminal(old(store.db), op) && StatusIs(store.db, op, Succeeded) ==>
      var row := old(store.db).operations[op];
      row.kind.PurgeAgent? ==>
        row.agent.Some? && row.agent.value in store.db.tombstones && row.agent.value !in store.db.agents
  {
    if !status.IsTerminal() { return false; }
    if !io.read(n) || op !in store.db.operations { return false; }
    var row := store.db.operations[op];
    if status == Succeeded && row.kind == PurgeAgent {
      if row.agent.None? || row.agent.value !in store.db.agents { return false; }
      ok := PurgeOperation(store, op, row.agent.value, others, now, io, n);
      return;
    }
    ok := FinishOperation(store, op, status, error, others, now, io, n);
  }

  /** The purge transaction, after other threads had their turn. */
  method PurgeOperation(store: S.SqliteStore, op: OpId, a: AgentId, others: nat -> Tables -> Tables, now: int,
                        io: Io, n: nat)
    returns (ok: bool)
    requires Harmless(others) && op in store.db.operations
    modifies store
    ensures Moved(old(store.db), store.db, op) && op in store.db.operations
    ensures ok <==> io.purge(n) && CanPurge(others(2 * n)(old(store.db)), a, op)
    ensures ok ==> EndsWith(store.db, op, Succeeded, None) && a in store.db.tombstones && a !in store.db.agents
    ensures ok ==> Completed(op, true) in store.db.audits
    ensures !ok ==> store.db.operations[op].status == old(store.db).operations[op].status
  {
    Interleave(store, others, 2 * n, op);
    ghost var db1 := store.db;
    var r := store.CompletePurge(a, op, now, io.purge(n));
    PurgeMoves(db1, store.db, a, op, now, r.Ok?);
    MovedTransitive(old(store.db), db1, store.db, op);
    return r.Ok?;
  }

  /** The transition and its audit row, with other threads acting before each. */
  method FinishOperation(store: S.SqliteStore, op: OpId, status: Status, error: Option<string>,
                         others: nat -> Tables -> Tables, now: int, io: Io, n: nat)
    returns (ok: bool)
    requires Harmless(others) && op in store.db.operations
    modifies store
    ensures Moved(old(store.db), store.db, op) && op in store.db.operations
    ensures ok ==> StatusIs(store.db, op, status) && store.db.operations[op].error == error
    ensures ok ==> Completed(op, status == Succeeded) in store.db.audits
    ensures store.db.operations[op].status == old(store.db).operations[op].status || StatusIs(store.db, op, status)
    ensures io.transition(n) && old(store.db).operations[op].status.CanTransitionTo(status) ==>
      EndsWith(store.db, op, status, error) && (io.audit(n) ==> ok)
    ensures store.db.operations[op].status != old(store.db).operations[op].status ==>
      EndsWith(store.db, op, status, error)
  {
    Interleave(store, others, 2 * n, op);
    ghost var db1 := store.db;
    var r := store.TransitionOperation(op, status, error, now, io.transition(n));
    ghost var db2 := store.db;
    TransitionMoves(db1, db2, op, status, error, now, r.Ok?);
    MovedTransitive(old(store.db), db1, db2, op);
    if r.Err? { return false; }
    Interleave(store, others, 2 * n + 1, op);
    ghost var db3 := store.db;
    MovedTransitive(old(store.db), db2, db3, op);
    var audited := store.AppendAudit(Completed(op, status == Succeeded), io.audit(n));
    assert store.db.operations == db3.operations;
    return audited.Ok?;
  }

  // What a handled operation ends with.

  /** The operation has the status and the error that reconciliation ended with. */
  predicate AsSaid(db: Tables, op: OpId, effect: Effect) {
    && effect.Ends? && StatusIs(db, op, effect.status)
    && db.operations[op].error == if IsPurge(db, op, effect) then None else effect.error
  }

  /** The success of a purge, whose agent goes with it. */
  predicate IsPurge(db: Tables, op: OpId, effect: Effect) {
    effect.Ends? && effect.status == Succeeded && op in db.operations && db.operations[op].kind.PurgeAgent?
  }

  /** Reconciliation ended with a terminal status, and if that is the success of a purge, the guards of
      the purge hold. */
  predicate EffectGoes(db: Tables, db': Tables, op: OpId, effect: Effect, purge: bool) {
    effect.Ends? && effect.status.IsTerminal() && (IsPurge(db, op, effect) ==> PurgeGoes(db, db', op, purge))
  }

  predicate AgentIsBuried(db: Tables, db': Tables, op: OpId) {
    && op in db.operations && db.operations[op].agent.Some?
    && db.operations[op].agent.value in db'.tombstones && db.operations[op].agent.value !in db'.agents
  }

  predicate IsUnfinished(db: Tables, op: OpId) { op in db.operations && !db.operations[op].status.IsTerminal() }

  /** Claims the operation, reconciles, and completes it. Other threads act between any two accesses.
      If every access succeeds, the operation ends as reconciliation said. `before` is the store when
      the operation is completed. */
  method Reconcile(store: S.SqliteStore, op: OpId, effect: Effect, others: nat -> Tables -> Tables, now: int, io: Io)
    returns (ok: bool, ghost before: Tables)
    requires Harmless(others)
    modifies store
    ensures Moved(old(store.db), store.db, op)
    ensures (forall n :: io.read(n) && io.transition(n)) && op in old(store.db).operations ==>
      !StatusIs(store.db, op, Pending)
    ensures (forall n :: io.read(n) && io.transition(n)) && op in old(store.db).operations && ok ==>
      Terminal(store.db, op)
    ensures IsUnfinished(old(store.db), op) && (ok || Terminal(store.db, op)) ==> AsSaid(store.db, op, effect)
    ensures AllSucceed(io) && IsUnfinished(old(store.db), op) ==>
      && Moved(old(store.db), before, op) && StatusIs(before, op, Running)
      && (ok <==> EffectGoes(before, others(6)(before), op, effect, io.purge(3)))
      && (ok && IsPurge(before, op, effect) ==> AgentIsBuried(before, store.db, op))
      && (!ok ==> IsUnfinished(store.db, op))
  {
    ghost var db0 := store.db;
    before := db0;
    var running;
    ok, running := Claim(store, op, others, now, io);
    ghost var db1 := store.db;
    if !ok || !running { return; }
    Interleave(store, others, 4, op);
    before := store.db;
    MovedTransitive(db0, db1, before, op);
    hide Moved;
    if effect.Fails? { return false, before; }
    ok := CompleteOperation(store, op, effect.status, effect.error, others, now, io, 3);
    MovedTransitive(db0, before, store.db, op);
    StillThere(before, store.db, op);
  }

  /** Starts a pending operation, and says whether it is running then. */
  method Claim(store: S.SqliteStore, op: OpId, others: nat -> Tables -> Tables, now: int, io: Io)
    returns (ok: bool, running: bool)
    requires Harmless(others)
    modifies store
    ensures Moved(old(store.db), store.db, op)
    ensures (forall n :: io.read(n) && io.transition(n)) && op in old(store.db).operations ==>
      !StatusIs(store.db, op, Pending)
    ensures ok ==> op in old(store.db).operations && op in store.db.operations
    ensures ok ==> (running <==> StatusIs(store.db, op, Running)) && (running <==> IsUnfinished(old(store.db), op))
    ensures IsUnfinished(old(store.db), op) ==> IsUnfinished(store.db, op)
    ensures AllSucceed(io) && op in old(store.db).operations ==> ok
  {
    ok, running := false, false;
    if !io.read(0) || op !in store.db.operations { return; }
    ghost var db0 := store.db;
    var pending := store.db.operations[op].status == Pending;
    Interleave(store, others, 0, op);
    ghost var db1 := store.db;
    if pending {
      var started := StartOperation(store, op, others, now, io, 1);
      MovedTransitive(db0, db1, store.db, op);
      if !started { return; }
    }
    ghost var db2 := store.db;
    Interleave(store, others, 1, op);
    MovedTransitive(db0, db2, store.db, op);
    if !io.read(2) || op !in store.db.operations { return; }
    return true, store.db.operations[op].status == Running;
  }

  lemma StillThere(db: Tables, db': Tables, op: OpId)
    requires Moved(db, db', op)
    ensures op in db.operations ==> op in db'.operations && Forward(db.operations[op], db'.operations[op])
  {
  }

  /** Handles an operation and contains every failure. If reads and transitions succeed, the
      operation is terminal afterwards, whatever reconciliation, audits and purges do, and it ends as
      reconciliation said or as an internal failure; if audits succeed too, it ends as reconciliation
      said exactly if that can be completed. */
  method HandleOperation(store: S.SqliteStore, op: OpId, effect: Effect, others: nat -> Tables -> Tables, now: int,
                         io: Io) returns (ghost before: Tables)
    requires Harmless(others)
    modifies store
    ensures Moved(old(store.db), store.db, op)
    ensures (forall n :: io.read(n) && io.transition(n)) && op in old(store.db).operations ==> Terminal(store.db, op)
    ensures IsUnfinished(old(store.db), op) && Terminal(store.db, op) ==>
      AsSaid(store.db, op, effect) || EndsWith(store.db, op, Status.Failed, Some("internal"))
    ensures AllSucceed(io) && IsUnfinished(old(store.db), op) ==>
      && Moved(old(store.db), before, op) && StatusIs(before, op, Running)
      && if EffectGoes(before, others(6)(before), op, effect, io.purge(3))
         then AsSaid(store.db, op, effect) && (IsPurge(before, op, effect) ==> AgentIsBuried(before, store.db, op))
         else EndsWith(store.db, op, Status.Failed, Some("internal"))
  {
    var ok;
    ok, before := Reconcile(store, op, effect, others, now, io);
    if !ok {
      ghost var db1 := store.db;
      StillThere(old(store.db), db1, op);
      Contain(store, op, others, now, io);
      MovedTransitive(old(store.db), db1, store.db, op);
    }
  }

  /** What follows a failed reconciliation: an operation that is still unfinished is failed. */
  method Contain(store: S.SqliteStore, op: OpId, others: nat -> Tables -> Tables, now: int, io: Io)
    requires Harmless(others)
    modifies store
    ensures Moved(old(store.db), store.db, op)
    ensures (forall n :: io.read(n) && io.transition(n)) && op in old(store.db).operations ==>
      StatusIs(old(store.db), op, Pending) || Terminal(store.db, op)
    ensures IsUnfinished(old(store.db), op) && Terminal(store.db, op) ==>
      EndsWith(store.db, op, Status.Failed, Some("internal"))
    ensures Terminal(old(store.db), op) ==>
      EndsWith(store.db, op, old(store.db).operations[op].status, old(store.db).operations[op].error)
  {
    ghost var db0 := store.db;
    Interleave(store, others, 8, op);
    ghost var db1 := store.db;
    StillThere(db0, db1, op);
    if !io.read(4) || op !in store.db.operations { return; }
    if store.db.operations[op].status.IsTerminal() { return; }
    var pending := store.db.operations[op].status == Pending;
    Interleave(store, others, 9, op);
    ghost var db2 := store.db;
    MovedTransitive(db0, db1, db2, op);
    StillThere(db0, db2, op);
    if pending {
      var started := StartOperation(store, op, others, now, io, 5);
      MovedTransitive(db0, db2, store.db, op);
      if !started { return; }
    }
    ghost var db3 := store.db;
    Interleave(store, others, 14, op);
    ghost var db4 := store.db;
    MovedTransitive(db0, db3, db4, op);
    var _ := CompleteOperation(store, op, Status.Failed, Some("internal"), others, now, io, 6);
    MovedTransitive(db0, db4, store.db, op);
  }

  /** The ids of the operations a crash may have left unfinished. */
  function Unfinished(db: Tables): set<OpId> {
    set o | o in db.operations && !db.operations[o].status.IsTerminal()
  }

  /** Creation order, ties broken by id. */
  predicate Precedes(db: Tables, o: OpId, o': OpId)
    requires o in db.operations && o' in db.operations
  {
    After(o', db.operations[o'], o, db.operations[o])
  }

  predicate IsOldest(db: Tables, o: OpId, s: set<OpId>)
    requires s <= db.operations.Keys
  {
    o in s && forall o' | o' in s && o' != o :: Precedes(db, o, o')
  }

  lemma {:induction false} OldestExists(db: Tables, s: set<OpId>)
    requires s <= db.operations.Keys && s != {}
    ensures exists o :: IsOldest(db, o, s)
  {
    var x :| x in s;
    if s == {x} {
      assert IsOldest(db, x, s);
    } else {
      var rest := s - {x};
      assert s == rest + {x} && rest != {};
      OldestExists(db, rest);
      var o :| IsOldest(db, o, rest);
      assert IsOldest(db, if Precedes(db, o, x) then o else x, s);
    }
  }

  ghost predicate InOrder(db: Tables, queue: seq<OpId>) {
    && (forall o | o in queue :: o in db.operations)
    && (forall i, j | 0 <= i < j < |queue| :: Precedes(db, queue[i], queue[j]))
  }

  ghost predicate AllPrecede(db: Tables, queue: seq<OpId>, rest: set<OpId>)
    requires rest <= db.operations.Keys
  {
    forall o, o' | o in queue && o' in rest :: o in db.operations && Precedes(db, o, o')
  }

  lemma AppendOldest(db: Tables, queue: seq<OpId>, rest: set<OpId>, o: OpId)
    requires rest <= db.operations.Keys && InOrder(db, queue) && AllPrecede(db, queue, rest) && IsOldest(db, o, rest)
    ensures InOrder(db, queue + [o]) && AllPrecede(db, queue + [o], rest - {o})
  {
    var queue' := queue + [o];
    forall i, j | 0 <= i < j < |queue'| ensures Precedes(db, queue'[i], queue'[j]) {
      assert queue[i] in queue;
    }
  }

  /** Lists the unfinished operations for the startup queue, oldest first. */
  method NonterminalOperations(db: Tables) returns (queue: seq<OpId>)
    ensures InOrder(db, queue)
    ensures forall o :: o in queue <==> o in Unfinished(db)
  {
    var rest := Unfinished(db);
    queue := [];
    while rest != {}
      invariant rest <= db.operations.Keys && InOrder(db, queue) && AllPrecede(db, queue, rest)
      invariant forall o :: o in queue || o in rest <==> o in Unfinished(db)
      decreases |rest|
    {
      OldestExists(db, rest);
      var o :| o in rest && IsOldest(db, o, rest);
      AppendOldest(db, queue, rest, o);
      hide InOrder, AllPrecede, IsOldest, Unfinished;
      queue, rest := queue + [o], rest - {o};
    }
  }

  /** No operation that was unfinished before is unfinished now, and finished ones are as they were. */
  ghost predicate Drained(db: Tables, db': Tables) {
    forall o | o in db.operations :: Terminal(db', o) && Forward(db.operations[o], db'.operations[o])
  }

  ghost predicate DrainedUpTo(db: Tables, db': Tables, done: seq<OpId>) {
    forall o | o in db.operations :: o in db'.operations && Forward(db.operations[o], db'.operations[o])
      && (o in done ==> Terminal(db', o))
  }

  lemma DrainStep(db: Tables, mid: Tables, db': Tables, done: seq<OpId>, op: OpId)
    requires DrainedUpTo(db, mid, done) && Moved(mid, db', op)
    requires op in mid.operations ==> Terminal(db', op)
    ensures DrainedUpTo(db, db', done + [op])
  {
    forall o | o in db.operations ensures o in db'.operations && Forward(db.operations[o], db'.operations[o])
      && (o in done + [op] ==> Terminal(db', o))
    {
      assert o in mid.operations;
    }
  }

  /** One drain of the startup queue; store failures and other threads differ from one operation to
      the next. */
  method DrainStartupQueue(store: S.SqliteStore, effects: OpId -> Effect, others: nat -> nat -> Tables -> Tables,
                           now: int, ios: nat -> Io)
    requires forall i: nat :: Harmless(others(i))
    requires forall i: nat, n: nat :: ios(i).read(n) && ios(i).transition(n)
    modifies store
    ensures Drained(old(store.db), store.db)
  {
    var queue := NonterminalOperations(store.db);
    ghost var db := store.db;
    for i := 0 to |queue|
      invariant DrainedUpTo(db, store.db, queue[..i])
    {
      ghost var mid := store.db;
      ghost var _ := HandleOperation(store, queue[i], effects(queue[i]), others(i), now, ios(i));
      DrainStep(db, mid, store.db, queue[..i], queue[i]);
      assert queue[..i + 1] == queue[..i] + [queue[i]];
    }
    assert queue[..|queue|] == queue;
    assert forall o | o in db.operations && o !in queue :: db.operations[o].status.IsTerminal();
  }
}
