/** Removing a community with its deleted agents: the statement-by-statement effect of the loops and
    the effect they have together. */
module CommunityRemoval {
  import opened Operation
  import opened Basics
  import opened Tables

  predicate IsMember(db: Tables, c: CommunityId, a: AgentId) { a in db.agents && db.agents[a].community == c }

  /** INSERT ... ON CONFLICT DO NOTHING. */
  function Inserted(out: map<Publication, OutboxRow>, p: Publication, row: OutboxRow): map<Publication, OutboxRow> {
    if p in out then out else out[p := row]
  }

  function Queued(db: Tables, c: CommunityId, p: Publication, now: int, id: nat): Tables {
    db.(outbox := Inserted(db.outbox, p, OutboxRow(id, c, now, 0, None)))
  }

  /** Ids that the removal draws: a purge operation for each agent, and outbox row ids. */
  datatype Ids = Ids(op: AgentId -> OpId, row: Publication -> nat)

  /** Publishes an agent's withdrawal if it was projected. */
  function Withdrawn(db: Tables, c: CommunityId, a: AgentId, now: int, ids: Ids): Tables {
    if ManagedAgent(c, a) !in db.projections then db
    else
      var scope := db.projections[ManagedAgent(c, a)];
      var t, i := TombstoneAgent(a, scope), ArchiveIdentity(a, scope);
      Queued(Queued(db, c, t, now, ids.row(t)), c, i, now, ids.row(i))
  }

  /** An insert fails when its row would be new and the row's id is taken. */
  predicate CanQueue(out: map<Publication, OutboxRow>, p: Publication, id: nat) {
    p in out || forall q | q in out :: out[q].id != id
  }

  predicate CanWithdraw(db: Tables, c: CommunityId, a: AgentId, now: int, ids: Ids) {
    ManagedAgent(c, a) in db.projections ==>
      var scope := db.projections[ManagedAgent(c, a)];
      var t, i := TombstoneAgent(a, scope), ArchiveIdentity(a, scope);
      CanQueue(db.outbox, t, ids.row(t)) && CanQueue(Queued(db, c, t, now, ids.row(t)).outbox, i, ids.row(i))
  }

  function PurgeRow(a: AgentId, now: int): OperationRow {
    OperationRow(PurgeAgent, Succeeded, Some(a), None, now, now)
  }

  /** One turn of the agent loop. */
  function AgentGone(db: Tables, c: CommunityId, a: AgentId, now: int, ids: Ids): Tables {
    var published := Withdrawn(db, c, a, now, ids);
    var recorded := published.(operations := published.operations[ids.op(a) := PurgeRow(a, now)]);
    WithoutAgent(InsertTombstone(recorded, a, ids.op(a)), a)
  }

  // What has happened, table by table, when the agents in `gone` and the personas in `told` are done.

  function Orphaned(row: OperationRow, gone: set<AgentId>): OperationRow {
    if row.agent.Some? && row.agent.value in gone then row.(agent := None) else row
  }

  ghost predicate Operations(ops: map<OpId, OperationRow>, ops': map<OpId, OperationRow>,
                             gone: set<AgentId>, now: int, ids: Ids) {
    && (forall o | o in ops :: o in ops' && ops'[o] == Orphaned(ops[o], gone))
    && (forall a | a in gone :: ids.op(a) !in ops && ids.op(a) in ops'
          && ops'[ids.op(a)] == PurgeRow(a, now).(agent := None))
    && (forall a, b | a in gone && b in gone && ids.op(a) == ids.op(b) :: a == b)
    && (forall o | o in ops' && o !in ops :: exists a :: a in gone && ids.op(a) == o)
  }

  ghost predicate Tombstones(ts: map<AgentId, OpId>, ts': map<AgentId, OpId>, gone: set<AgentId>, ids: Ids) {
    && (forall a :: a in ts' <==> a in ts || a in gone)
    && (forall a | a in ts :: ts'[a] == ts[a])
    && (forall a | a in gone && a !in ts :: ts'[a] == ids.op(a))
  }

  ghost predicate Outbox(out: map<Publication, OutboxRow>, out': map<Publication, OutboxRow>,
                         due: Publication -> bool, c: CommunityId, now: int, ids: Ids) {
    && (forall p | p in out :: p in out' && out'[p] == out[p])
    && (forall p | p in out' && p !in out :: due(p) && out'[p] == OutboxRow(ids.row(p), c, now, 0, None))
    && (forall p | due(p) :: p in out')
  }

  /** A publication owed for an agent in `gone` or a persona in `told`. */
  predicate Due(db: Tables, c: CommunityId, gone: set<AgentId>, told: set<string>, p: Publication) {
    match p
    case TombstoneAgent(a, scope) => a in gone && IsProjected(db, ManagedAgent(c, a), scope)
    case ArchiveIdentity(a, scope) => a in gone && IsProjected(db, ManagedAgent(c, a), scope)
    case TombstonePersona(persona, scope) => persona in told && IsProjected(db, Persona(c, persona), scope)
  }

  ghost predicate Untouched(db: Tables, tx: Tables) {
    && tx.communities == db.communities && tx.keys == db.keys && tx.drafts == db.drafts
    && tx.draftKeys == db.draftKeys && tx.audits == db.audits && tx.projections == db.projections
  }

  ghost predicate Progress(db: Tables, tx: Tables, c: CommunityId, gone: set<AgentId>, told: set<string>, now: int,
                           ids: Ids) {
    && tx.agents == db.agents - gone && tx.retention == db.retention - gone
    && Operations(db.operations, tx.operations, gone, now, ids)
    && Tombstones(db.tombstones, tx.tombstones, gone, ids)
    && Outbox(db.outbox, tx.outbox, p => Due(db, c, gone, told, p), c, now, ids)
    && Untouched(db, tx)
  }

  function OperationsGone(ops: map<OpId, OperationRow>, a: AgentId, op: OpId, now: int): map<OpId, OperationRow> {
    var with := ops[op := PurgeRow(a, now)];
    map o | o in with :: Detached(with[o], a)
  }

  lemma OperationsStep(ops: map<OpId, OperationRow>, mid: map<OpId, OperationRow>, gone: set<AgentId>, a: AgentId,
                       now: int, ids: Ids)
    requires Operations(ops, mid, gone, now, ids) && a !in gone && ids.op(a) !in mid
    ensures Operations(ops, OperationsGone(mid, a, ids.op(a), now), gone + {a}, now, ids)
  {
    var ops' := OperationsGone(mid, a, ids.op(a), now);
    var gone' := gone + {a};
    forall o | o in ops ensures o in ops' && ops'[o] == Orphaned(ops[o], gone') {
      assert o in mid;
    }
    forall b | b in gone' ensures ids.op(b) !in ops && ids.op(b) in ops'
      && ops'[ids.op(b)] == PurgeRow(b, now).(agent := None)
    {
      if b != a { assert b in gone; }
    }
    forall o | o in ops' && o !in ops ensures exists b :: b in gone' && ids.op(b) == o {
      if o == ids.op(a) {
        assert a in gone';
      } else {
        var b :| b in gone && ids.op(b) == o;
        assert b in gone';
      }
    }
  }

  lemma QueueStep(out: map<Publication, OutboxRow>, mid: map<Publication, OutboxRow>, due: Publication -> bool,
                  due': Publication -> bool, c: CommunityId, p: Publication, now: int, ids: Ids)
    requires Outbox(out, mid, due, c, now, ids)
    requires forall q :: due'(q) <==> due(q) || q == p
    ensures Outbox(out, Inserted(mid, p, OutboxRow(ids.row(p), c, now, 0, None)), due', c, now, ids)
  {
    var out' := Inserted(mid, p, OutboxRow(ids.row(p), c, now, 0, None));
    forall q | q in out ensures q in out' && out'[q] == out[q] {
      assert q in mid;
    }
    forall q | q in out' && q !in out ensures due'(q) && out'[q] == OutboxRow(ids.row(q), c, now, 0, None) {
      if q in mid { assert due(q); }
    }
    forall q | due'(q) ensures q in out' {
      if q != p { assert due(q); }
    }
  }

  // Drawing outbox row ids.

  /** The ids of the rows that are due and not queued yet are free and distinct. */
  ghost predicate FreshRows(out: map<Publication, OutboxRow>, due: Publication -> bool, ids: Ids) {
    && (forall p, q | due(p) && p !in out && q in out :: out[q].id != ids.row(p))
    && (forall p, q | due(p) && p !in out && due(q) && q !in out && ids.row(p) == ids.row(q) :: p == q)
  }

  /** The same for the rows of some agents and personas, and for all that a removal owes. */
  ghost predicate FreshDue(db: Tables, c: CommunityId, gone: set<AgentId>, told: set<string>, ids: Ids) {
    FreshRows(db.outbox, p => Due(db, c, gone, told, p), ids)
  }

  ghost predicate FreshOwed(db: Tables, c: CommunityId, ids: Ids) { FreshRows(db.outbox, p => Owed(db, c, p), ids) }

  lemma FewerRowsAreFresh(out: map<Publication, OutboxRow>, due: Publication -> bool, due': Publication -> bool,
                          ids: Ids)
    requires FreshRows(out, due', ids) && forall q :: due(q) ==> due'(q)
    ensures FreshRows(out, due, ids)
  {
  }

  /** The next insert succeeds exactly when its row's id is fresh as well. */
  lemma QueueIsFresh(out: map<Publication, OutboxRow>, mid: map<Publication, OutboxRow>, due: Publication -> bool,
                     due': Publication -> bool, c: CommunityId, p: Publication, now: int, ids: Ids)
    requires Outbox(out, mid, due, c, now, ids) && FreshRows(out, due, ids)
    requires forall q :: due'(q) <==> due(q) || q == p
    ensures CanQueue(mid, p, ids.row(p)) <==> FreshRows(out, due', ids)
  {
    if p in mid {
      forall q ensures due'(q) && q !in out <==> due(q) && q !in out {
        if q == p && p !in out { assert due(p); }
      }
    } else {
      assert due'(p) && p !in out;
      if CanQueue(mid, p, ids.row(p)) {
        forall q | q in out ensures out[q].id != ids.row(p) { assert q in mid; }
        forall q | due(q) && q !in out ensures ids.row(q) != ids.row(p) { assert q in mid; }
      }
      if FreshRows(out, due', ids) {
        forall q | q in mid ensures mid[q].id != ids.row(p) {
          if q !in out { assert due(q) && due'(q); }
        }
      }
    }
  }

  lemma WithdrawIsFresh(db: Tables, tx: Tables, c: CommunityId, gone: set<AgentId>, a: AgentId, now: int, ids: Ids)
    requires Outbox(db.outbox, tx.outbox, p => Due(db, c, gone, {}, p), c, now, ids) && tx.projections == db.projections
    requires FreshDue(db, c, gone, {}, ids)
    ensures CanWithdraw(tx, c, a, now, ids) <==> FreshDue(db, c, gone + {a}, {}, ids)
  {
    hide Outbox, FreshRows, CanQueue;
    var due, due' := p => Due(db, c, gone, {}, p), p => Due(db, c, gone + {a}, {}, p);
    if ManagedAgent(c, a) in db.projections {
      var scope := db.projections[ManagedAgent(c, a)];
      var t, i := TombstoneAgent(a, scope), ArchiveIdentity(a, scope);
      var mid := p => due(p) || p == t;
      QueueIsFresh(db.outbox, tx.outbox, due, mid, c, t, now, ids);
      QueueStep(db.outbox, tx.outbox, due, mid, c, t, now, ids);
      if FreshRows(db.outbox, mid, ids) {
        QueueIsFresh(db.outbox, Queued(tx, c, t, now, ids.row(t)).outbox, mid, due', c, i, now, ids);
      }
      if FreshRows(db.outbox, due', ids) { FewerRowsAreFresh(db.outbox, mid, due', ids); }
    } else {
      FewerRowsAreFresh(db.outbox, due', due, ids);
    }
  }

  /** The same for a turn of the agent loop and for a turn of the persona loop. */
  lemma AgentIsFresh(db: Tables, tx: Tables, c: CommunityId, gone: set<AgentId>, a: AgentId, now: int, ids: Ids)
    requires Progress(db, tx, c, gone, {}, now, ids) && FreshDue(db, c, gone, {}, ids)
    ensures CanWithdraw(tx, c, a, now, ids) <==> FreshDue(db, c, gone + {a}, {}, ids)
  {
    WithdrawIsFresh(db, tx, c, gone, a, now, ids);
  }

  lemma PersonaIsFresh(db: Tables, tx: Tables, c: CommunityId, gone: set<AgentId>, told: set<string>, persona: string,
                       now: int, ids: Ids)
    requires Progress(db, tx, c, gone, told, now, ids) && Persona(c, persona) in db.projections
    requires FreshDue(db, c, gone, told, ids)
    ensures var p := TombstonePersona(persona, db.projections[Persona(c, persona)]);
      CanQueue(tx.outbox, p, ids.row(p)) <==> FreshDue(db, c, gone, told + {persona}, ids)
  {
    hide Outbox, FreshRows, CanQueue, Operations, Tombstones;
    var q := TombstonePersona(persona, db.projections[Persona(c, persona)]);
    var due, due' := p => Due(db, c, gone, told, p), p => Due(db, c, gone, told + {persona}, p);
    QueueIsFresh(db.outbox, tx.outbox, due, due', c, q, now, ids);
  }

  /** Fewer agents and personas need fewer rows. */
  lemma FewerAreFresh(db: Tables, c: CommunityId, gone: set<AgentId>, told: set<string>, gone': set<AgentId>,
                      told': set<string>, ids: Ids)
    requires FreshDue(db, c, gone', told', ids) && gone <= gone' && told <= told'
    ensures FreshDue(db, c, gone, told, ids)
  {
    FewerRowsAreFresh(db.outbox, p => Due(db, c, gone, told, p), p => Due(db, c, gone', told', p), ids);
  }

  lemma NoRowsAreFresh(db: Tables, c: CommunityId, ids: Ids)
    ensures FreshDue(db, c, {}, {}, ids)
  {
  }

  lemma WithdrawnStep(db: Tables, tx: Tables, c: CommunityId, gone: set<AgentId>, a: AgentId, now: int, ids: Ids)
    requires Outbox(db.outbox, tx.outbox, p => Due(db, c, gone, {}, p), c, now, ids) && tx.projections == db.projections
    ensures Outbox(db.outbox, Withdrawn(tx, c, a, now, ids).outbox, p => Due(db, c, gone + {a}, {}, p), c, now, ids)
    ensures var w := Withdrawn(tx, c, a, now, ids); w == tx.(outbox := w.outbox)
  {
    hide Outbox;
    var due, due' := p => Due(db, c, gone, {}, p), p => Due(db, c, gone + {a}, {}, p);
    if ManagedAgent(c, a) in db.projections {
      var scope := db.projections[ManagedAgent(c, a)];
      var t, i := TombstoneAgent(a, scope), ArchiveIdentity(a, scope);
      var mid := p => due(p) || p == t;
      QueueStep(db.outbox, tx.outbox, due, mid, c, t, now, ids);
      QueueStep(db.outbox, Queued(tx, c, t, now, ids.row(t)).outbox, mid, due', c, i, now, ids);
    } else {
      SameDue(db.outbox, tx.outbox, due, due', c, now, ids);
    }
  }

  lemma SameDue(out: map<Publication, OutboxRow>, out': map<Publication, OutboxRow>,
                due: Publication -> bool, due': Publication -> bool, c: CommunityId, now: int, ids: Ids)
    requires Outbox(out, out', due, c, now, ids) && forall q :: due'(q) <==> due(q)
    ensures Outbox(out, out', due', c, now, ids)
  {
  }

  /** One turn of the agent loop, table by table. */
  lemma AgentGoneTables(db: Tables, c: CommunityId, a: AgentId, now: int, ids: Ids)
    ensures AgentGone(db, c, a, now, ids) ==
      db.(agents := db.agents - {a}, retention := db.retention - {a},
          operations := OperationsGone(db.operations, a, ids.op(a), now),
          tombstones := if a in db.tombstones then db.tombstones else db.tombstones[a := ids.op(a)],
          outbox := Withdrawn(db, c, a, now, ids).outbox)
  {
    var w := Withdrawn(db, c, a, now, ids);
    assert w == db.(outbox := w.outbox);
    hide Withdrawn;
  }

  lemma TombstonesStep(ts: map<AgentId, OpId>, mid: map<AgentId, OpId>, gone: set<AgentId>, a: AgentId, ids: Ids)
    requires Tombstones(ts, mid, gone, ids)
    ensures Tombstones(ts, if a in mid then mid else mid[a := ids.op(a)], gone + {a}, ids)
  {
  }

  lemma AgentStep(db: Tables, tx: Tables, c: CommunityId, gone: set<AgentId>, a: AgentId, now: int, ids: Ids)
    requires Progress(db, tx, c, gone, {}, now, ids) && a !in gone && ids.op(a) !in tx.operations
    ensures Progress(db, AgentGone(tx, c, a, now, ids), c, gone + {a}, {}, now, ids)
  {
    hide Operations, Outbox, Withdrawn, Tombstones, AgentGone, OperationsGone;
    OperationsStep(db.operations, tx.operations, gone, a, now, ids);
    WithdrawnStep(db, tx, c, gone, a, now, ids);
    TombstonesStep(db.tombstones, tx.tombstones, gone, a, ids);
    AgentGoneTables(tx, c, a, now, ids);
    assert db.agents - gone - {a} == db.agents - (gone + {a});
    assert db.retention - gone - {a} == db.retention - (gone + {a});
  }

  lemma PersonaStep(db: Tables, tx: Tables, c: CommunityId, gone: set<AgentId>, told: set<string>, persona: string,
                    now: int, ids: Ids)
    requires Progress(db, tx, c, gone, told, now, ids) && Persona(c, persona) in db.projections
    ensures var p := TombstonePersona(persona, db.projections[Persona(c, persona)]);
      Progress(db, Queued(tx, c, p, now, ids.row(p)), c, gone, told + {persona}, now, ids)
  {
    hide Operations, Tombstones, Outbox;
    var q := TombstonePersona(persona, db.projections[Persona(c, persona)]);
    var due, due' := p => Due(db, c, gone, told, p), p => Due(db, c, gone, told + {persona}, p);
    QueueStep(db.outbox, tx.outbox, due, due', c, q, now, ids);
  }

  /** The effect of a whole removal. */
  ghost predicate Removal(db: Tables, db': Tables, c: CommunityId, members: set<AgentId>, now: int, ids: Ids) {
    && (forall a :: a in members <==> IsMember(db, c, a))
    && db'.communities == db.communities - {c}
    && db'.agents == db.agents - members && db'.retention == db.retention - members
    && Operations(db.operations, db'.operations, members, now, ids)
    && Tombstones(db.tombstones, db'.tombstones, members, ids)
    && Outbox(db.outbox, db'.outbox, p => Owed(db, c, p), c, now, ids)
    && db'.keys == db.keys && db'.drafts == db.drafts && db'.draftKeys == db.draftKeys
    && db'.audits == db.audits && db'.projections == db.projections
  }

  lemma DueIsOwed(db: Tables, c: CommunityId, members: set<AgentId>, told: set<string>, p: Publication)
    requires forall a :: a in members <==> IsMember(db, c, a)
    requires forall q :: q in told <==> Persona(c, q) in db.projections
    ensures Due(db, c, members, told, p) <==> Owed(db, c, p)
  {
    match p
    case TombstonePersona(persona, _) => assert persona in told <==> Persona(c, persona) in db.projections;
    case TombstoneAgent(a, _) => assert a in members <==> IsMember(db, c, a);
    case ArchiveIdentity(a, _) => assert a in members <==> IsMember(db, c, a);
  }

  /** The rows due after both loops are those the removal owes. */
  lemma OwedRowsAreFresh(db: Tables, c: CommunityId, members: set<AgentId>, told: set<string>, ids: Ids)
    requires forall a :: a in members <==> IsMember(db, c, a)
    requires forall q :: q in told <==> Persona(c, q) in db.projections
    ensures FreshDue(db, c, members, told, ids) <==> FreshOwed(db, c, ids)
  {
    hide FreshRows, Due, Owed;
    forall p ensures Due(db, c, members, told, p) <==> Owed(db, c, p) { DueIsOwed(db, c, members, told, p); }
    var due, owed := p => Due(db, c, members, told, p), p => Owed(db, c, p);
    if FreshRows(db.outbox, due, ids) { FewerRowsAreFresh(db.outbox, owed, due, ids); }
    if FreshRows(db.outbox, owed, ids) { FewerRowsAreFresh(db.outbox, due, owed, ids); }
  }

  lemma ProgressIsRemoval(db: Tables, tx: Tables, c: CommunityId, members: set<AgentId>, told: set<string>, now: int,
                          ids: Ids)
    requires Progress(db, tx, c, members, told, now, ids)
    requires forall a :: a in members <==> IsMember(db, c, a)
    requires forall q :: q in told <==> Persona(c, q) in db.projections
    ensures Removal(db, tx.(communities := tx.communities - {c}), c, members, now, ids)
  {
    hide Operations, Tombstones, Outbox;
    forall p ensures Due(db, c, members, told, p) <==> Owed(db, c, p) { DueIsOwed(db, c, members, told, p); }
    SameDue(db.outbox, tx.outbox, p => Due(db, c, members, told, p), p => Owed(db, c, p), c, now, ids);
  }
}
