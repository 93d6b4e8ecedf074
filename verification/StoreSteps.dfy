/** The atomic steps of the lifecycle store, as relations between the tables before and after. */
module StoreSteps {
  import opened Operation
  import opened Basics
  import opened Tables
  import opened CommunityRemoval

  /** What a command's sender gets back. */
  datatype Reply = New | Replay(op: OpId) | Refused

  ghost predicate Acceptable(db: Tables, c: Command) { exists valid :: Admissible(db, c, valid) }

  ghost predicate CommandStep(db: Tables, db': Tables, c: Command, reply: Reply) {
    if c.key in db.keys
    then db' == db && reply == (if db.keys[c.key].hash == c.hash then Replay(db.keys[c.key].op) else Refused)
    else match reply
         case New => Acceptable(db, c) && db' == Committed(db, c)
         case Replay(_) => false
         case Refused => db' == db
  }

  ghost predicate DraftStep(db: Tables, db': Tables, id: DraftId, document: string, key: Key, hash: string,
                            saved: bool) {
    if saved
    then && key !in db.draftKeys && id !in db.drafts
         && db' == db.(drafts := db.drafts[id := Draft(document, None)],
                       draftKeys := db.draftKeys[key := DraftKeyRow(hash, id)],
                       audits := db.audits + [DraftSaved(id)])
    else db' == db
  }

  ghost predicate TransitionStep(db: Tables, db': Tables, op: OpId, next: Status, error: Option<string>, now: int,
                                 ok: bool) {
    if ok
    then && op in db.operations && db.operations[op].status.CanTransitionTo(next)
         && var row := db.operations[op].(status := next, error := error, updated := now);
            db' == db.(operations := db.operations[op := row])
    else db' == db
  }

  ghost predicate PurgeStep(db: Tables, db': Tables, a: AgentId, op: OpId, now: int, ok: bool) {
    if ok then CanPurge(db, a, op) && db' == Purged(db, a, op, now) else db' == db
  }

  ghost predicate RemovalStep(db: Tables, db': Tables, c: CommunityId, members: set<AgentId>, now: int, ids: Ids,
                              ok: bool) {
    if ok
    then && Removable(db, c) && Removal(db, db', c, members, now, ids)
         && FreshOwed(db, c, ids)
    else db' == db
  }

  ghost predicate PutAgentStep(db: Tables, db': Tables, a: AgentId, agent: Agent, ok: bool) {
    if ok then agent.community in db.communities && db' == db.(agents := db.agents[a := agent]) else db' == db
  }

  ghost predicate EnqueueStep(db: Tables, db': Tables, c: CommunityId, p: Publication, now: int, id: nat, ok: bool) {
    if ok && p !in db.outbox
    then RowIdIsFree(db, id) && db' == db.(outbox := db.outbox[p := OutboxRow(id, c, now, 0, None)])
    else db' == db
  }

  ghost predicate CompletePublicationStep(db: Tables, db': Tables, id: nat) {
    && db' == db.(outbox := db'.outbox)
    && (forall q :: q in db'.outbox <==> q in db.outbox && db.outbox[q].id != id)
    && (forall q | q in db'.outbox :: db'.outbox[q] == db.outbox[q])
  }

  ghost predicate FailPublicationStep(db: Tables, db': Tables, id: nat, error: string) {
    && db' == db.(outbox := db'.outbox)
    && (forall q :: q in db'.outbox <==> q in db.outbox)
    && (forall q | q in db'.outbox :: db'.outbox[q] == Attempted(db.outbox[q], id, error))
  }

  /** Adding communities, changing projections, and auditing reconciliation. */
  ghost predicate SideStep(db: Tables, db': Tables) {
    && db.communities <= db'.communities
    && (db'.audits == db.audits || exists audit: Audit :: !audit.Accepted? && db'.audits == db.audits + [audit])
    && db' == db.(communities := db'.communities, audits := db'.audits, projections := db'.projections)
  }
}
