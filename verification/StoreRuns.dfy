/** Safety of the lifecycle store over every run of its atomic steps, from the empty database. */
module StoreRuns {
  import opened Operation
  import opened Basics
  import opened Tables
  import opened CommunityRemoval
  import opened StoreSteps

  datatype Step =
    | Submit(command: Command, reply: Reply)
    | SaveDraft(id: DraftId, document: string, key: Key, hash: string, saved: bool)
    | Transition(op: OpId, next: Status, error: Option<string>, now: int, ok: bool)
    | CompletePurge(agent: AgentId, op: OpId, now: int, ok: bool)
    | RemoveCommunity(community: CommunityId, members: set<AgentId>, now: int, ids: Ids, ok: bool)
    | PutAgent(agent: AgentId, row: Agent, ok: bool)
    | Enqueue(community: CommunityId, publication: Publication, now: int, rowId: nat, ok: bool)
    | CompletePublication(rowId: nat)
    | FailPublication(rowId: nat, reason: string)
    | Side

  /** `complete_operation` sends the success of a purge to CompletePurge, never to Transition. */
  ghost predicate Routed(db: Tables, op: OpId, next: Status) {
    next.Succeeded? && op in db.operations ==> !db.operations[op].kind.PurgeAgent?
  }

  ghost predicate Next(db: Tables, db': Tables, step: Step) {
    match step
    case Submit(c, reply) => CommandStep(db, db', c, reply)
    case SaveDraft(id, document, key, hash, saved) => DraftStep(db, db', id, document, key, hash, saved)
    case Transition(op, next, error, now, ok) =>
      TransitionStep(db, db', op, next, error, now, ok) && Routed(db, op, next)
    case CompletePurge(a, op, now, ok) => PurgeStep(db, db', a, op, now, ok)
    case RemoveCommunity(c, members, now, ids, ok) => RemovalStep(db, db', c, members, now, ids, ok)
    case PutAgent(a, row, ok) => PutAgentStep(db, db', a, row, ok)
    case Enqueue(c, p, now, id, ok) => EnqueueStep(db, db', c, p, now, id, ok)
    case CompletePublication(id) => CompletePublicationStep(db, db', id)
    case FailPublication(id, error) => FailPublicationStep(db, db', id, error)
    case Side => SideStep(db, db')
  }

  ghost predicate IsRun(run: seq<Tables>, steps: seq<Step>) {
    && |run| == |steps| + 1 && run[0] == EMPTY
    && forall i | 0 <= i < |steps| :: Next(run[i], run[i + 1], steps[i])
  }

  // Purged agents.

  /** A tombstoned agent has no row, and tombstones and succeeded purge operations are one to one. */
  ghost predicate Buried(agents: set<AgentId>, ops: map<OpId, OperationRow>, tombs: map<AgentId, OpId>) {
    && (forall a | a in tombs :: a !in agents)
    && (forall a | a in tombs :: tombs[a] in ops && IsDonePurge(ops[tombs[a]]))
    && (forall a, b | a in tombs && b in tombs && tombs[a] == tombs[b] :: a == b)
    && (forall o | o in ops && IsDonePurge(ops[o]) :: HasTombstone(tombs, o))
  }

  predicate IsDonePurge(row: OperationRow) { row.kind.PurgeAgent? && row.status.Succeeded? }

  ghost predicate HasTombstone(tombs: map<AgentId, OpId>, o: OpId) { exists a :: a in tombs && tombs[a] == o }

  ghost predicate PurgeInv(db: Tables) { Buried(db.agents.Keys, db.operations, db.tombstones) }

  /** The step would give a purged agent a row again. */
  predicate Resurrects(db: Tables, step: Step) {
    || (step.PutAgent? && step.ok && step.agent in db.tombstones)
    || (step.Submit? && step.reply.New? && step.command.mutation.Create? && step.command.target in db.tombstones)
  }

  /** Steps that bury nobody: rows may lose their agent, and only other operations advance. */
  lemma NobodyBuried(agents: set<AgentId>, ops: map<OpId, OperationRow>, tombs: map<AgentId, OpId>,
                     agents': set<AgentId>, ops': map<OpId, OperationRow>)
    requires Buried(agents, ops, tombs)
    requires forall a | a in agents' :: a in agents || a !in tombs
    requires forall o | o in ops && IsDonePurge(ops[o]) :: o in ops' && IsDonePurge(ops'[o])
    requires forall o | o in ops' && IsDonePurge(ops'[o]) :: o in ops && IsDonePurge(ops[o])
    ensures Buried(agents', ops', tombs)
  {
  }

  /** A new done purge operation buries one agent. */
  lemma OneBuried(agents: set<AgentId>, ops: map<OpId, OperationRow>, tombs: map<AgentId, OpId>, a: AgentId, op: OpId,
                  ops': map<OpId, OperationRow>)
    requires Buried(agents, ops, tombs) && a in agents
    requires op in ops && !IsDonePurge(ops[op]) && op in ops' && IsDonePurge(ops'[op])
    requires forall o | o != op :: (o in ops && IsDonePurge(ops[o]) <==> o in ops' && IsDonePurge(ops'[o]))
    ensures Buried(agents - {a}, ops', tombs[a := op])
  {
    var tombs' := tombs[a := op];
    assert a !in tombs;
    forall o | o in ops' && IsDonePurge(ops'[o]) ensures HasTombstone(tombs', o) {
      if o == op {
        assert tombs'[a] == o;
      } else {
        var b :| b in tombs && tombs[b] == o;
        assert tombs'[b] == o;
      }
    }
  }

  lemma AllBuried(agents: set<AgentId>, ops: map<OpId, OperationRow>, tombs: map<AgentId, OpId>, gone: set<AgentId>,
                  ops': map<OpId, OperationRow>, tombs': map<AgentId, OpId>, now: int, ids: Ids)
    requires Buried(agents, ops, tombs) && gone <= agents
    requires Operations(ops, ops', gone, now, ids) && Tombstones(tombs, tombs', gone, ids)
    ensures Buried(agents - gone, ops', tombs')
  {
    assert forall a | a in gone :: a !in tombs;
    forall a | a in tombs' ensures tombs'[a] in ops' && IsDonePurge(ops'[tombs'[a]]) {
      if a in tombs { assert tombs[a] in ops && ops'[tombs[a]] == Orphaned(ops[tombs[a]], gone); }
    }
    forall a, b | a in tombs' && b in tombs' && tombs'[a] == tombs'[b] ensures a == b {
      assert a in tombs ==> tombs[a] in ops;
      assert b in tombs ==> tombs[b] in ops;
      assert a in gone ==> ids.op(a) !in ops;
      assert b in gone ==> ids.op(b) !in ops;
    }
    forall o | o in ops' && IsDonePurge(ops'[o]) ensures HasTombstone(tombs', o) {
      if o in ops {
        assert ops'[o] == Orphaned(ops[o], gone);
        var a :| a in tombs && tombs[a] == o;
        assert tombs'[a] == o;
      } else {
        var a :| a in gone && ids.op(a) == o;
        assert tombs'[a] == o;
      }
    }
  }

  /** What a committed command does to operations, agents and tombstones. */
  lemma CommittedTables(db: Tables, db': Tables, c: Command)
    requires CommandStep(db, db', c, New)
    ensures c.op !in db.operations && db'.operations == db.operations[c.op := NewOperation(c)]
    ensures db'.agents.Keys == db.agents.Keys + {c.target} && db'.tombstones == db.tombstones
    ensures c.mutation.Create? || c.target in db.agents
  {
    var valid :| Admissible(db, c, valid);
  }

  lemma SubmitKeepsPurgeInv(db: Tables, db': Tables, step: Step)
    requires PurgeInv(db) && step.Submit? && Next(db, db', step) && !Resurrects(db, step)
    ensures PurgeInv(db')
  {
    var c := step.command;
    if step.reply.New? && c.key !in db.keys {
      CommittedTables(db, db', c);
      assert !IsDonePurge(NewOperation(c));
      assert forall a | a in db'.agents.Keys :: a in db.agents.Keys || a !in db.tombstones;
      hide Buried, Next, NewOperation;
      NobodyBuried(db.agents.Keys, db.operations, db.tombstones, db'.agents.Keys, db'.operations);
    }
  }

  lemma CompletePurgeKeepsPurgeInv(db: Tables, db': Tables, a: AgentId, op: OpId, now: int)
    requires PurgeInv(db) && PurgeStep(db, db', a, op, now, true)
    ensures PurgeInv(db')
  {
    assert a !in db.tombstones;
    assert db'.tombstones == db.tombstones[a := op];
    assert db'.agents.Keys == db.agents.Keys - {a};
    assert forall o :: o in db'.operations <==> o in db.operations;
    assert forall o | o in db.operations && o != op :: db'.operations[o] == Detached(db.operations[o], a);
    assert IsDonePurge(db'.operations[op]);
    hide Buried, Purged;
    OneBuried(db.agents.Keys, db.operations, db.tombstones, a, op, db'.operations);
  }

  lemma RemovalKeepsPurgeInv(db: Tables, db': Tables, c: CommunityId, members: set<AgentId>, now: int, ids: Ids)
    requires PurgeInv(db) && Removal(db, db', c, members, now, ids)
    ensures PurgeInv(db')
  {
    hide Buried, Operations, Tombstones, Outbox;
    assert members <= db.agents.Keys by {
      forall a | a in members ensures a in db.agents { assert IsMember(db, c, a); }
    }
    assert db'.agents.Keys == db.agents.Keys - members;
    AllBuried(db.agents.Keys, db.operations, db.tombstones, members, db'.operations, db'.tombstones, now, ids);
  }

  lemma TransitionKeepsPurgeInv(db: Tables, db': Tables, op: OpId, next: Status, error: Option<string>, now: int)
    requires PurgeInv(db) && TransitionStep(db, db', op, next, error, now, true) && Routed(db, op, next)
    ensures PurgeInv(db')
  {
    hide Buried;
    NobodyBuried(db.agents.Keys, db.operations, db.tombstones, db'.agents.Keys, db'.operations);
  }

  /** Every step keeps purged agents buried, unless it writes a row for one. */
  lemma StepKeepsPurgeInv(db: Tables, db': Tables, step: Step)
    requires PurgeInv(db) && Next(db, db', step) && !Resurrects(db, step)
    ensures PurgeInv(db')
  {
    hide PurgeInv, CommandStep, PurgeStep, Removal, TransitionStep;
    match step
    case Submit(_, _) => SubmitKeepsPurgeInv(db, db', step);
    case SaveDraft(_, _, _, _, _) => SamePurgeInv(db, db');
    case Transition(op, next, error, now, ok) =>
      if ok {
        TransitionKeepsPurgeInv(db, db', op, next, error, now);
      } else {
        TransitionFails(db, db', op, next, error, now);
      }
    case CompletePurge(a, op, now, ok) =>
      if ok { CompletePurgeKeepsPurgeInv(db, db', a, op, now); } else { PurgeFails(db, db', a, op, now); }
    case RemoveCommunity(c, members, now, ids, ok) =>
      if ok { RemovalKeepsPurgeInv(db, db', c, members, now, ids); }
    case PutAgent(a, row, ok) => PutKeepsPurgeInv(db, db', a, row, ok);
    case Enqueue(_, _, _, _, _) => SamePurgeInv(db, db');
    case CompletePublication(_) => SamePurgeInv(db, db');
    case FailPublication(_, _) => SamePurgeInv(db, db');
    case Side => SamePurgeInv(db, db');
  }

  lemma TransitionFails(db: Tables, db': Tables, op: OpId, next: Status, error: Option<string>, now: int)
    requires TransitionStep(db, db', op, next, error, now, false)
    ensures db' == db
  {
  }

  lemma PurgeFails(db: Tables, db': Tables, a: AgentId, op: OpId, now: int)
    requires PurgeStep(db, db', a, op, now, false)
    ensures db' == db
  {
  }

  lemma SamePurgeInv(db: Tables, db': Tables)
    requires PurgeInv(db)
    requires db'.agents == db.agents && db'.operations == db.operations && db'.tombstones == db.tombstones
    ensures PurgeInv(db')
  {
  }

  lemma PutKeepsPurgeInv(db: Tables, db': Tables, a: AgentId, row: Agent, ok: bool)
    requires PurgeInv(db) && PutAgentStep(db, db', a, row, ok) && (ok ==> a !in db.tombstones)
    ensures PurgeInv(db')
  {
    if ok {
      hide Buried;
      NobodyBuried(db.agents.Keys, db.operations, db.tombstones, db'.agents.Keys, db'.operations);
    }
  }

  /** Exactly: the invariant survives a step if and only if the step resurrects nobody. */
  lemma PurgeInvExactly(db: Tables, db': Tables, step: Step)
    requires PurgeInv(db) && Next(db, db', step)
    ensures PurgeInv(db') <==> !Resurrects(db, step)
  {
    if !Resurrects(db, step) {
      StepKeepsPurgeInv(db, db', step);
    } else if step.Submit? {
      SubmitResurrects(db, db', step);
    }
  }

  lemma SubmitResurrects(db: Tables, db': Tables, step: Step)
    requires PurgeInv(db) && step.Submit? && Next(db, db', step) && Resurrects(db, step)
    ensures !PurgeInv(db')
  {
    var c := step.command;
    var valid :| Admissible(db, c, valid);
    assert c.target in db'.agents && c.target in db'.tombstones;
  }

  ghost predicate ResurrectsNobody(run: seq<Tables>, steps: seq<Step>)
    requires IsRun(run, steps)
  {
    forall i | 0 <= i < |steps| :: !Resurrects(run[i], steps[i])
  }

  lemma {:induction false} PurgedStaysPurged(run: seq<Tables>, steps: seq<Step>, i: nat)
    requires IsRun(run, steps) && ResurrectsNobody(run, steps) && i < |run|
    ensures PurgeInv(run[i])
  {
    if i > 0 {
      PurgedStaysPurged(run, steps, i - 1);
      hide PurgeInv, Resurrects;
      assert Next(run[i - 1], run[i - 1 + 1], steps[i - 1]) && !Resurrects(run[i - 1], steps[i - 1]);
      hide Next;
      StepKeepsPurgeInv(run[i - 1], run[i], steps[i - 1]);
    }
  }

  lemma Extend(run: seq<Tables>, steps: seq<Step>, db: Tables, step: Step)
    requires IsRun(run, steps) && Next(run[|run| - 1], db, step)
    ensures IsRun(run + [db], steps + [step])
  {
    hide Next;
    var run', steps' := run + [db], steps + [step];
    forall i | 0 <= i < |steps'| ensures Next(run'[i], run'[i + 1], steps'[i]) {
      if i < |steps| { assert Next(run[i], run[i + 1], steps[i]); }
    }
  }

  const DEMO_AGENT := Agent(1, "a", "", "", Enabled)
  const DEMO_CREATE := Command(1, CreateAgent, Some(7), 0, Key("create", "k"), "h", 7, Create(DEMO_AGENT), None)
  const DEMO_PURGE := Command(2, PurgeAgent, Some(7), 1, Key("purge", "k"), "h", 7, SetState(Deleted, None), None)

  /** A database with one agent that is being purged. */
  function BeingPurged(status: Status): Tables {
    var purge := NewOperation(DEMO_PURGE).(status := status, updated := if status.Pending? then 1 else 2);
    EMPTY.(communities := {1}, agents := map[7 := DEMO_AGENT.(desired := Deleted)],
           operations := map[1 := NewOperation(DEMO_CREATE), 2 := purge],
           keys := map[Key("create", "k") := KeyRow("h", 1), Key("purge", "k") := KeyRow("h", 2)],
           audits := [Accepted(1), Accepted(2)])
  }

  const DEMO_JOINED := EMPTY.(communities := {1})
  const DEMO_CREATED := DEMO_JOINED.(agents := map[7 := DEMO_AGENT], operations := map[1 := NewOperation(DEMO_CREATE)],
                                     keys := map[Key("create", "k") := KeyRow("h", 1)], audits := [Accepted(1)])

  lemma CreatingStep()
    ensures Next(EMPTY, DEMO_JOINED, Side)
    ensures Next(DEMO_JOINED, DEMO_CREATED, Submit(DEMO_CREATE, New))
  {
    assert Admissible(DEMO_JOINED, DEMO_CREATE, _ => true);
    assert Committed(DEMO_JOINED, DEMO_CREATE) == DEMO_CREATED;
  }

  lemma PurgingStep()
    ensures Next(DEMO_CREATED, BeingPurged(Pending), Submit(DEMO_PURGE, New))
  {
    assert Admissible(DEMO_CREATED, DEMO_PURGE, _ => true);
    assert Committed(DEMO_CREATED, DEMO_PURGE) == BeingPurged(Pending);
  }

  lemma StartOfRuns()
    ensures IsRun([EMPTY], [])
  {
  }

  lemma BeingPurgedIsReachable() returns (run: seq<Tables>, steps: seq<Step>)
    ensures IsRun(run, steps) && run != [] && run[|run| - 1] == BeingPurged(Pending)
  {
    CreatingStep();
    PurgingStep();
    StartOfRuns();
    hide Next, IsRun, BeingPurged;
    run, steps := [EMPTY], [];
    Extend(run, steps, DEMO_JOINED, Side);
    run, steps := run + [DEMO_JOINED], steps + [Side];
    Extend(run, steps, DEMO_CREATED, Submit(DEMO_CREATE, New));
    run, steps := run + [DEMO_CREATED], steps + [Submit(DEMO_CREATE, New)];
    Extend(run, steps, BeingPurged(Pending), Submit(DEMO_PURGE, New));
    run, steps := run + [BeingPurged(Pending)], steps + [Submit(DEMO_PURGE, New)];
  }

  lemma PurgeAndUpsert() returns (gone: Tables, back: Tables)
    ensures Next(BeingPurged(Pending), BeingPurged(Running), Transition(2, Running, None, 2, true))
    ensures Next(BeingPurged(Running), gone, CompletePurge(7, 2, 3, true))
    ensures Next(gone, back, PutAgent(7, DEMO_AGENT, true))
    ensures 7 in back.tombstones && 7 in back.agents
  {
    gone := Purged(BeingPurged(Running), 7, 2, 3);
    back := gone.(agents := gone.agents[7 := DEMO_AGENT]);
    assert BeingPurged(Pending).operations[2 := BeingPurged(Running).operations[2]] == BeingPurged(Running).operations;
  }

  /** The guard is needed: a listing taken before a purge and written back after it, as at startup,
      reaches a database in which a purged agent has a row. */
  lemma StaleUpsertResurrects() returns (run: seq<Tables>, steps: seq<Step>)
    ensures IsRun(run, steps) && 7 in run[|run| - 1].tombstones && 7 in run[|run| - 1].agents
  {
    hide Next, IsRun;
    var gone, back := PurgeAndUpsert();
    run, steps := BeingPurgedIsReachable();
    var claim, purge := Transition(2, Running, None, 2, true), CompletePurge(7, 2, 3, true);
    var put := PutAgent(7, DEMO_AGENT, true);
    Nonempty(run, steps);
    hide BeingPurged;
    Extend(run, steps, BeingPurged(Running), claim);
    run, steps := run + [BeingPurged(Running)], steps + [claim];
    Extend(run, steps, gone, purge);
    run, steps := run + [gone], steps + [purge];
    Extend(run, steps, back, put);
    run, steps := run + [back], steps + [put];
  }

  lemma Nonempty(run: seq<Tables>, steps: seq<Step>)
    requires IsRun(run, steps)
    ensures run != []
  {
  }

  // What is there for ever.

  ghost predicate LaterOperation(row: OperationRow, row': OperationRow) {
    && row'.kind == row.kind && row'.created == row.created
    && row.status.Progress() <= row'.status.Progress()
    && (row.status.IsTerminal() ==> row'.status == row.status && row'.error == row.error)
    && (row'.agent == row.agent || row'.agent == None)
  }

  ghost predicate LaterDraft(d: Draft, d': Draft) {
    d'.document == d.document && (d.promoted.Some? ==> d'.promoted == d.promoted)
  }

  ghost predicate LaterOperations(ops: map<OpId, OperationRow>, ops': map<OpId, OperationRow>) {
    forall o | o in ops :: o in ops' && LaterOperation(ops[o], ops'[o])
  }

  ghost predicate LaterDrafts(ds: map<DraftId, Draft>, ds': map<DraftId, Draft>) {
    forall d | d in ds :: d in ds' && LaterDraft(ds[d], ds'[d])
  }

  ghost predicate Keeps<K(!new), V(!new)>(m: map<K, V>, m': map<K, V>) { forall k | k in m :: k in m' && m'[k] == m[k] }

  /** Operations, keys, drafts and tombstones never go away; terminal statuses, keys, draft links and
      tombstones never change. */
  ghost predicate Later(db: Tables, db': Tables) {
    && LaterOperations(db.operations, db'.operations)
    && LaterDrafts(db.drafts, db'.drafts)
    && Keeps(db.keys, db'.keys) && Keeps(db.draftKeys, db'.draftKeys) && Keeps(db.tombstones, db'.tombstones)
    && db.audits <= db'.audits
  }

  lemma LaterTransitive(a: Tables, b: Tables, c: Tables)
    requires Later(a, b) && Later(b, c)
    ensures Later(a, c)
  {
    assert LaterOperations(a.operations, c.operations) by {
      forall o | o in a.operations ensures o in c.operations && LaterOperation(a.operations[o], c.operations[o]) {
        assert o in b.operations;
      }
    }
    assert LaterDrafts(a.drafts, c.drafts) by {
      forall d | d in a.drafts ensures d in c.drafts && LaterDraft(a.drafts[d], c.drafts[d]) {
        assert d in b.drafts;
      }
    }
  }

  lemma CommandIsLater(db: Tables, db': Tables, c: Command, reply: Reply)
    requires CommandStep(db, db', c, reply)
    ensures Later(db, db')
  {
    if c.key !in db.keys && reply.New? {
      var valid :| Admissible(db, c, valid);
      hide CanMutate;
    }
  }

  /** A completed purge, table by table. */
  lemma PurgedTables(db: Tables, a: AgentId, op: OpId, now: int)
    requires op in db.operations
    ensures var d := Purged(db, a, op, now);
      && d == db.(agents := db.agents - {a}, retention := db.retention - {a}, operations := d.operations,
                  audits := db.audits + [Completed(op, true)],
                  tombstones := if a in db.tombstones then db.tombstones else db.tombstones[a := op])
      && d.operations.Keys == db.operations.Keys
      && (forall o | o in db.operations && o != op :: d.operations[o] == Detached(db.operations[o], a))
      && d.operations[op] == Detached(db.operations[op].(status := Succeeded, error := None, updated := now), a)
  {
  }

  lemma PurgedOperationsAreLater(ops: map<OpId, OperationRow>, ops': map<OpId, OperationRow>, a: AgentId, op: OpId,
                                 now: int)
    requires op in ops && op in ops' && ops[op].status.Running?
    requires forall o | o in ops && o != op :: o in ops' && ops'[o] == Detached(ops[o], a)
    requires ops'[op] == Detached(ops[op].(status := Succeeded, error := None, updated := now), a)
    ensures LaterOperations(ops, ops')
  {
  }

  lemma PurgeIsLater(db: Tables, db': Tables, a: AgentId, op: OpId, now: int, ok: bool)
    requires PurgeStep(db, db', a, op, now, ok)
    ensures Later(db, db')
  {
    if ok {
      assert op in db.operations && db.operations[op].status.Running?;
      PurgedTables(db, a, op, now);
      hide Purged, LaterOperations, CanPurge;
      PurgedOperationsAreLater(db.operations, db'.operations, a, op, now);
    } else {
      assert db' == db;
    }
  }

  lemma RemovalIsLater(db: Tables, db': Tables, c: CommunityId, members: set<AgentId>, now: int, ids: Ids, ok: bool)
    requires RemovalStep(db, db', c, members, now, ids, ok)
    ensures Later(db, db')
  {
    if ok {
      hide Removable, Outbox;
      assert forall o | o in db.operations :: db'.operations[o] == Orphaned(db.operations[o], members);
    }
  }

  lemma DraftIsLater(db: Tables, db': Tables, id: DraftId, document: string, key: Key, hash: string, saved: bool)
    requires DraftStep(db, db', id, document, key, hash, saved)
    ensures Later(db, db')
  {
  }

  lemma TransitionIsLater(db: Tables, db': Tables, op: OpId, next: Status, error: Option<string>, now: int, ok: bool)
    requires TransitionStep(db, db', op, next, error, now, ok)
    ensures Later(db, db')
  {
  }

  lemma SameIsLater(db: Tables, db': Tables)
    requires db'.operations == db.operations && db'.drafts == db.drafts && db'.keys == db.keys
    requires db'.draftKeys == db.draftKeys && db'.tombstones == db.tombstones && db.audits <= db'.audits
    ensures Later(db, db')
  {
  }

  predicate IsSmall(step: Step) {
    step.PutAgent? || step.Enqueue? || step.CompletePublication? || step.FailPublication? || step.Side?
  }

  lemma SmallStepIsLater(db: Tables, db': Tables, step: Step)
    requires IsSmall(step) && Next(db, db', step)
    ensures Later(db, db')
  {
    hide Later;
    assert db.audits <= db'.audits;
    SameIsLater(db, db');
  }

  lemma StepIsLater(db: Tables, db': Tables, step: Step)
    requires Next(db, db', step)
    ensures Later(db, db')
  {
    if IsSmall(step) {
      hide Later, Next;
      SmallStepIsLater(db, db', step);
    } else {
      LargeStepIsLater(db, db', step);
    }
  }

  lemma LargeStepIsLater(db: Tables, db': Tables, step: Step)
    requires Next(db, db', step) && !IsSmall(step)
    ensures Later(db, db')
  {
    hide CommandStep, PurgeStep, RemovalStep, TransitionStep, DraftStep, Later;
    match step
    case Submit(c, reply) => CommandIsLater(db, db', c, reply);
    case SaveDraft(id, document, key, hash, saved) => DraftIsLater(db, db', id, document, key, hash, saved);
    case Transition(op, next, error, now, ok) => TransitionIsLater(db, db', op, next, error, now, ok);
    case CompletePurge(a, op, now, ok) => PurgeIsLater(db, db', a, op, now, ok);
    case RemoveCommunity(c, members, now, ids, ok) => RemovalIsLater(db, db', c, members, now, ids, ok);
  }

  lemma {:induction false} RunIsLater(run: seq<Tables>, steps: seq<Step>, i: nat, j: nat)
    requires IsRun(run, steps) && i <= j < |run|
    ensures Later(run[i], run[j])
    decreases j
  {
    if i < j {
      RunIsLater(run, steps, i, j - 1);
      assert Next(run[j - 1], run[j - 1 + 1], steps[j - 1]);
      hide Next, Later;
      StepIsLater(run[j - 1], run[j], steps[j - 1]);
      LaterTransitive(run[i], run[j - 1], run[j]);
    }
  }

  /** A purged agent stays purged under the same succeeded operation for the rest of the run. */
  lemma TombstonesAreForEver(run: seq<Tables>, steps: seq<Step>, i: nat, j: nat, a: AgentId)
    requires IsRun(run, steps) && ResurrectsNobody(run, steps) && i <= j < |run| && a in run[i].tombstones
    ensures a in run[j].tombstones && run[j].tombstones[a] == run[i].tombstones[a]
    ensures a !in run[j].agents && run[j].tombstones[a] in run[j].operations
    ensures IsDonePurge(run[j].operations[run[j].tombstones[a]])
  {
    RunIsLater(run, steps, i, j);
    PurgedStaysPurged(run, steps, j);
    hide Next;
  }

  // Exactly-once commands.

  predicate IsCommit(step: Step) { step.Submit? && step.reply.New? }

  function Commits(steps: seq<Step>): nat {
    if steps == [] then 0 else Commits(steps[..|steps| - 1]) + if IsCommit(steps[|steps| - 1]) then 1 else 0
  }

  function AcceptedAudits(audits: seq<Audit>): nat {
    if audits == [] then 0
    else AcceptedAudits(audits[..|audits| - 1]) + if audits[|audits| - 1].Accepted? then 1 else 0
  }

  lemma AuditAppended(audits: seq<Audit>, audit: Audit)
    ensures AcceptedAudits(audits + [audit]) == AcceptedAudits(audits) + if audit.Accepted? then 1 else 0
  {
    assert (audits + [audit])[..|audits|] == audits;
  }

  /** Each key names its own operation. */
  ghost predicate KeyInv(keys: map<Key, KeyRow>, ops: map<OpId, OperationRow>) {
    && (forall k | k in keys :: keys[k].op in ops)
    && (forall k, l | k in keys && l in keys && keys[k].op == keys[l].op :: k == l)
  }

  ghost predicate CommandInv(db: Tables, commits: nat) {
    && KeyInv(db.keys, db.operations)
    && |db.keys| == commits && AcceptedAudits(db.audits) == commits
    && (forall k | k in db.draftKeys :: db.draftKeys[k].draft in db.drafts)
  }

  lemma NewKey(keys: map<Key, KeyRow>, ops: map<OpId, OperationRow>, k: Key, hash: string, o: OpId, row: OperationRow)
    requires KeyInv(keys, ops) && k !in keys && o !in ops
    ensures KeyInv(keys[k := KeyRow(hash, o)], ops[o := row]) && |keys[k := KeyRow(hash, o)]| == |keys| + 1
  {
    assert keys[k := KeyRow(hash, o)].Keys == keys.Keys + {k};
  }

  lemma CommitKeepsCommandInv(db: Tables, db': Tables, c: Command, commits: nat)
    requires CommandInv(db, commits) && c.key !in db.keys && CommandStep(db, db', c, New)
    ensures CommandInv(db', commits + 1)
  {
    var valid :| Admissible(db, c, valid);
    hide CanMutate, Mutated, Retained, KeyInv;
    AuditAppended(db.audits, Accepted(c.op));
    NewKey(db.keys, db.operations, c.key, c.hash, c.op, NewOperation(c));
    hide AcceptedAudits;
  }

  /** No other step touches the keys or accepts a command. */
  lemma OtherTables(db: Tables, db': Tables, step: Step)
    requires Next(db, db', step) && !step.Submit?
    ensures db'.keys == db.keys
    ensures db'.audits == db.audits || exists audit: Audit :: !audit.Accepted? && db'.audits == db.audits + [audit]
    ensures step.SaveDraft? || db'.draftKeys == db.draftKeys
    ensures step.SaveDraft? && db'.draftKeys != db.draftKeys ==>
      step.id in db'.drafts && db'.draftKeys == db.draftKeys[step.key := DraftKeyRow(step.hash, step.id)]
  {
    hide CanPurge, Removable, Operations, Tombstones, Outbox, Detached;
  }

  lemma OtherKeepsCommandInv(db: Tables, db': Tables, step: Step, commits: nat)
    requires CommandInv(db, commits) && Next(db, db', step) && !step.Submit?
    ensures CommandInv(db', commits)
  {
    hide Next;
    StepIsLater(db, db', step);
    OtherTables(db, db', step);
    if db'.audits != db.audits {
      var audit: Audit :| !audit.Accepted? && db'.audits == db.audits + [audit];
      AuditAppended(db.audits, audit);
    }
    hide AcceptedAudits;
  }

  lemma {:induction false} CommandsAreCounted(run: seq<Tables>, steps: seq<Step>, i: nat)
    requires IsRun(run, steps) && i < |run|
    ensures CommandInv(run[i], Commits(steps[..i]))
  {
    if i > 0 {
      CommandsAreCounted(run, steps, i - 1);
      var step := steps[i - 1];
      assert Next(run[i - 1], run[i - 1 + 1], step);
      assert steps[..i][..i - 1] == steps[..i - 1];
      assert Commits(steps[..i]) == Commits(steps[..i - 1]) + if IsCommit(step) then 1 else 0;
      if IsCommit(step) && step.command.key !in run[i - 1].keys {
        hide CommandInv, Commits, Next;
        assert CommandStep(run[i - 1], run[i], step.command, New) by { CommitSteps(run[i - 1], run[i], step); }
        CommitKeepsCommandInv(run[i - 1], run[i], step.command, Commits(steps[..i - 1]));
      } else if step.Submit? {
        hide CommandInv, Commits, Committed, Acceptable;
        assert run[i] == run[i - 1];
      } else {
        hide CommandInv, Commits, Next;
        OtherKeepsCommandInv(run[i - 1], run[i], step, Commits(steps[..i - 1]));
      }
    } else {
      assert steps[..0] == [];
    }
  }

  lemma CommitSteps(db: Tables, db': Tables, step: Step)
    requires IsCommit(step) && Next(db, db', step)
    ensures CommandStep(db, db', step.command, New)
  {
  }

  lemma CommitAt(db: Tables, db': Tables, step: Step)
    requires IsCommit(step) && Next(db, db', step)
    ensures step.command.key !in db.keys && step.command.agent == Some(step.command.target)
    ensures step.command.key in db'.keys && db'.keys[step.command.key] == KeyRow(step.command.hash, step.command.op)
    ensures step.command.op in db'.operations && db'.operations[step.command.op] == NewOperation(step.command)
    ensures step.command.draft.Some? ==>
      && step.command.draft.value in db.drafts && db.drafts[step.command.draft.value].promoted == None
      && step.command.draft.value in db'.drafts
      && db'.drafts[step.command.draft.value].promoted == Some(step.command.op)
  {
    var valid :| Admissible(db, step.command, valid);
    assert MatchesKind(step.command);
    hide CanMutate, Mutated, Retained;
  }

  // A purge buries the agent its command named.

  /** The purge operation `op` of agent `t`: it names no other agent, and once it has succeeded the
      tombstone of `t` names it. */
  ghost predicate PurgeOf(db: Tables, op: OpId, t: AgentId) {
    && op in db.operations && db.operations[op].kind.PurgeAgent?
    && db.operations[op].agent in {Some(t), None}
    && (db.operations[op].status.Succeeded? ==> t in db.tombstones && db.tombstones[t] == op)
  }

  /** Only a completed purge makes an existing purge operation succeed. */
  lemma OnlyCompletionSucceeds(db: Tables, db': Tables, step: Step, op: OpId)
    requires Next(db, db', step) && op in db.operations && db.operations[op].kind.PurgeAgent?
    requires op in db'.operations && db'.operations[op].status.Succeeded? && !db.operations[op].status.Succeeded?
    ensures step.CompletePurge? && step.ok && step.op == op
  {
    if step.CompletePurge? && step.ok {
      PurgedTables(db, step.agent, step.op, step.now);
      hide Purged;
    } else if step.Submit? {
      SubmitKeepsRow(db, db', step, op);
    } else if step.RemoveCommunity? {
      RemovalKeepsRow(db, db', step, op);
    }
  }

  lemma SubmitKeepsRow(db: Tables, db': Tables, step: Step, op: OpId)
    requires step.Submit? && Next(db, db', step) && op in db.operations
    ensures op in db'.operations && db'.operations[op] == db.operations[op]
  {
    if step.reply.New? && step.command.key !in db.keys {
      var valid :| Admissible(db, step.command, valid);
      hide CanMutate, Mutated, Retained;
    }
  }

  lemma RemovalKeepsRow(db: Tables, db': Tables, step: Step, op: OpId)
    requires step.RemoveCommunity? && Next(db, db', step) && op in db.operations
    ensures op in db'.operations
    ensures db'.operations[op] in {db.operations[op], db.operations[op].(agent := None)}
  {
    hide Removable, Outbox, Tombstones;
  }

  lemma StepKeepsPurgeOf(db: Tables, db': Tables, step: Step, op: OpId, t: AgentId)
    requires PurgeInv(db) && PurgeOf(db, op, t) && Next(db, db', step)
    ensures PurgeOf(db', op, t)
  {
    StepIsLater(db, db', step);
    if db'.operations[op].status.Succeeded? && !db.operations[op].status.Succeeded? {
      OnlyCompletionSucceeds(db, db', step, op);
      assert step.agent == t && t !in db.tombstones;
      PurgedTables(db, t, op, step.now);
    }
    hide Next, Buried;
  }

  lemma CommitIsPurgeOf(db: Tables, db': Tables, step: Step)
    requires IsCommit(step) && step.command.kind.PurgeAgent? && Next(db, db', step)
    ensures PurgeOf(db', step.command.op, step.command.target)
  {
    CommitAt(db, db', step);
    hide Next;
  }

  /** The purge operation of a command succeeds only by burying the agent which that command named,
      under that operation. */
  lemma {:induction false} PurgeBuriesItsAgent(run: seq<Tables>, steps: seq<Step>, i: nat, j: nat)
    requires IsRun(run, steps) && ResurrectsNobody(run, steps) && i < j < |run|
    requires IsCommit(steps[i]) && steps[i].command.kind.PurgeAgent?
    ensures PurgeOf(run[j], steps[i].command.op, steps[i].command.target)
    decreases j
  {
    hide Next, PurgeOf, PurgeInv, Resurrects;
    assert Next(run[j - 1], run[j - 1 + 1], steps[j - 1]);
    if j == i + 1 {
      CommitIsPurgeOf(run[i], run[j], steps[i]);
    } else {
      PurgeBuriesItsAgent(run, steps, i, j - 1);
      PurgedStaysPurged(run, steps, j - 1);
      StepKeepsPurgeOf(run[j - 1], run[j], steps[j - 1], steps[i].command.op, steps[i].command.target);
    }
  }

  /** Once a command is committed, sending its key again, at any later time, changes no table: with
      the same hash it returns the committed operation, with another it is refused. */
  lemma ReplaysReturnTheOriginal(run: seq<Tables>, steps: seq<Step>, i: nat, j: nat)
    requires IsRun(run, steps) && i < j < |steps| && IsCommit(steps[i]) && steps[j].Submit?
    requires steps[j].command.key == steps[i].command.key
    ensures run[j + 1] == run[j]
    ensures steps[j].reply ==
      if steps[j].command.hash == steps[i].command.hash then Replay(steps[i].command.op) else Refused
  {
    CommitAt(run[i], run[i + 1], steps[i]);
    RunIsLater(run, steps, i + 1, j);
    assert Next(run[j], run[j + 1], steps[j]);
  }

  /** Two commands never promote the same draft, and a draft keeps the operation it was linked to. */
  lemma DraftsArePromotedOnce(run: seq<Tables>, steps: seq<Step>, i: nat, j: nat)
    requires IsRun(run, steps) && i < j < |run| && IsCommit(steps[i]) && steps[i].command.draft.Some?
    ensures var d := steps[i].command.draft.value;
      && d in run[j].drafts && run[j].drafts[d].promoted == Some(steps[i].command.op)
      && (j < |steps| && IsCommit(steps[j]) ==> steps[j].command.draft != Some(d))
  {
    CommitAt(run[i], run[i + 1], steps[i]);
    RunIsLater(run, steps, i + 1, j);
    if j < |steps| && IsCommit(steps[j]) {
      assert Next(run[j], run[j + 1], steps[j]);
      CommitAt(run[j], run[j + 1], steps[j]);
    }
  }
}
