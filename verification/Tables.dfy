/** The lifecycle database: its tables as maps keyed by their primary keys, what each transaction
    does to them, and when it is refused. Deleting an agent row clears the agent of its operations
    (ON DELETE SET NULL) and drops its retention row (ON DELETE CASCADE). */
module Tables {
  import opened Operation
  import opened Basics

  type CommunityId = nat
  type AgentId = nat
  type OpId = nat
  type DraftId = string

  datatype Desired = Enabled | Disabled | Deleted

  datatype Agent = Agent(community: CommunityId, name: string, prompt: string, runtime: string, desired: Desired)

  datatype OperationRow = OperationRow(kind: Kind, status: Status, agent: Option<AgentId>,
                                       error: Option<string>, created: int, updated: int)

  datatype Key = Key(scope: string, key: string)

  datatype KeyRow = KeyRow(hash: string, op: OpId)

  datatype Draft = Draft(document: string, promoted: Option<OpId>)

  datatype DraftKeyRow = DraftKeyRow(hash: string, draft: DraftId)

  datatype Retention = Retention(deletedAt: int, purgeAfter: int)

  datatype Audit = Accepted(op: OpId) | DraftSaved(draft: DraftId) | Started(op: OpId) | Completed(op: OpId, ok: bool)

  datatype Scope = Scope(relay: string, owner: string, tag: string)

  datatype Projection = ManagedAgent(community: CommunityId, agent: AgentId)
                      | Persona(community: CommunityId, persona: string)

  /** The unique key of the publication outbox: action, subject and scope. */
  datatype Publication = TombstoneAgent(agent: AgentId, scope: Scope)
                       | ArchiveIdentity(agent: AgentId, scope: Scope)
                       | TombstonePersona(persona: string, scope: Scope)

  datatype OutboxRow = OutboxRow(id: nat, community: CommunityId, created: int, attempts: nat,
                                 lastError: Option<string>)

  datatype Tables = Tables(
    communities: set<CommunityId>,
    agents: map<AgentId, Agent>,
    operations: map<OpId, OperationRow>,
    keys: map<Key, KeyRow>,
    drafts: map<DraftId, Draft>,
    draftKeys: map<Key, DraftKeyRow>,
    retention: map<AgentId, Retention>,
    tombstones: map<AgentId, OpId>,
    audits: seq<Audit>,
    projections: map<Projection, Scope>,
    outbox: map<Publication, OutboxRow>)

  const EMPTY := Tables({}, map[], map[], map[], map[], map[], map[], map[], [], map[], map[])

  datatype Error = NotFound | Conflict | Invalid | Database

  datatype Result<T> = Ok(value: T) | Err(error: Error)

  // Deleting an agent row.

  function Detached(row: OperationRow, a: AgentId): OperationRow {
    if row.agent == Some(a) then row.(agent := None) else row
  }

  function WithoutAgent(db: Tables, a: AgentId): Tables {
    db.(agents := db.agents - {a}, retention := db.retention - {a},
        operations := map o | o in db.operations :: Detached(db.operations[o], a))
  }

  /** INSERT OR IGNORE. */
  function InsertTombstone(db: Tables, a: AgentId, op: OpId): Tables {
    if a in db.tombstones then db else db.(tombstones := db.tombstones[a := op])
  }

  // Commands.

  datatype Mutation =
    | Create(agent: Agent)
    | Update(name: Option<string>, prompt: Option<string>, runtime: Option<string>)
    | SetState(desired: Desired, deadline: Option<int>)

  /** A lifecycle command as `execute` submits it: a new pending operation with its key and hash.
      `target` is the agent the mutation names, `agent` the one the operation names. */
  datatype Command = Command(op: OpId, kind: Kind, agent: Option<AgentId>, now: int, key: Key, hash: string,
                             target: AgentId, mutation: Mutation, draft: Option<DraftId>)

  function Or(o: Option<string>, s: string): string { if o.Some? then o.value else s }

  predicate MatchesKind(c: Command) {
    && c.agent == Some(c.target)
    && match c.mutation
       case Create(_) => c.kind.CreateAgent?
       case Update(_, _, _) => c.kind.UpdateAgent?
       case SetState(desired, _) =>
         || (c.kind.EnableAgent? && desired.Enabled?)
         || (c.kind.DisableAgent? && desired.Disabled?)
         || ((c.kind.DeleteAgent? || c.kind.PurgeAgent?) && desired.Deleted?)
  }

  /** The agent row after the mutation. */
  function Mutated(db: Tables, c: Command): Agent
    requires c.mutation.Create? || c.target in db.agents
  {
    match c.mutation
    case Create(agent) => agent
    case Update(name, prompt, runtime) =>
      var a := db.agents[c.target];
      a.(name := Or(name, a.name), prompt := Or(prompt, a.prompt), runtime := Or(runtime, a.runtime))
    case SetState(desired, _) => db.agents[c.target].(desired := desired)
  }

  /** Whether the mutation itself can be made. Validation is a parameter. */
  predicate CanMutate(db: Tables, c: Command, valid: Agent -> bool) {
    && MatchesKind(c)
    && (if c.mutation.Create? then c.target !in db.agents && c.mutation.agent.community in db.communities
        else c.target in db.agents)
    && (c.mutation.SetState? || valid(Mutated(db, c)))
    && (c.kind.DeleteAgent? ==> c.mutation.deadline.Some?)
  }

  /** Whether a command under a new key is carried out. */
  predicate Admissible(db: Tables, c: Command, valid: Agent -> bool) {
    && CanMutate(db, c, valid)
    && c.op !in db.operations
    && (c.draft.Some? ==> c.draft.value in db.drafts && db.drafts[c.draft.value].promoted == None)
  }

  function NewOperation(c: Command): OperationRow {
    OperationRow(c.kind, Pending, c.agent, None, c.now, c.now)
  }

  function Retained(db: Tables, c: Command): map<AgentId, Retention> {
    if c.kind.DeleteAgent? && c.mutation.SetState? && c.mutation.deadline.Some?
    then db.retention[c.target := Retention(c.now, c.mutation.deadline.value)]
    else if c.kind.EnableAgent? then db.retention - {c.target} else db.retention
  }

  /** All tables after a command is carried out. */
  function Committed(db: Tables, c: Command): Tables
    requires c.mutation.Create? || c.target in db.agents
    requires c.draft.Some? ==> c.draft.value in db.drafts
  {
    db.(agents := db.agents[c.target := Mutated(db, c)],
        retention := Retained(db, c),
        operations := db.operations[c.op := NewOperation(c)],
        keys := db.keys[c.key := KeyRow(c.hash, c.op)],
        drafts := if c.draft.None? then db.drafts
                  else db.drafts[c.draft.value := db.drafts[c.draft.value].(promoted := Some(c.op))],
        audits := db.audits + [Accepted(c.op)])
  }

  // Completing a purge.

  predicate CanPurge(db: Tables, a: AgentId, op: OpId) {
    && op in db.operations && db.operations[op].agent == Some(a) && db.operations[op].kind.PurgeAgent?
    && db.operations[op].status.CanTransitionTo(Succeeded)
    && a in db.agents && db.agents[a].desired.Deleted?
  }

  function Purged(db: Tables, a: AgentId, op: OpId, now: int): Tables
    requires op in db.operations
  {
    var row := db.operations[op].(status := Succeeded, error := None, updated := now);
    var done := db.(operations := db.operations[op := row], audits := db.audits + [Completed(op, true)]);
    WithoutAgent(InsertTombstone(done, a, op), a)
  }

  // Removing a community.

  predicate After(o: OpId, row: OperationRow, o': OpId, row': OperationRow) {
    row.created > row'.created || (row.created == row'.created && o > o')
  }

  predicate IsShutdown(row: OperationRow, a: AgentId) {
    row.agent == Some(a) && (row.kind.DeleteAgent? || row.kind.PurgeAgent?)
  }

  /** The newest delete or purge operation of the agent exists and succeeded. */
  predicate ShutDown(db: Tables, a: AgentId) {
    exists o | o in db.operations ::
      && IsShutdown(db.operations[o], a) && db.operations[o].status.Succeeded?
      && forall o' | o' in db.operations && IsShutdown(db.operations[o'], a) && o' != o ::
           After(o, db.operations[o], o', db.operations[o'])
  }

  predicate Removable(db: Tables, c: CommunityId) {
    && c in db.communities
    && forall a | a in db.agents && db.agents[a].community == c :: db.agents[a].desired.Deleted? && ShutDown(db, a)
  }

  /** The publications a removal owes the relays. */
  predicate Owed(db: Tables, c: CommunityId, p: Publication) {
    match p
    case TombstoneAgent(a, scope) =>
      IsProjected(db, ManagedAgent(c, a), scope) && a in db.agents && db.agents[a].community == c
    case ArchiveIdentity(a, scope) =>
      IsProjected(db, ManagedAgent(c, a), scope) && a in db.agents && db.agents[a].community == c
    case TombstonePersona(persona, scope) => IsProjected(db, Persona(c, persona), scope)
  }

  predicate IsProjected(db: Tables, p: Projection, scope: Scope) {
    p in db.projections && db.projections[p] == scope
  }

  // The publication outbox.

  predicate RowIdIsFree(db: Tables, id: nat) { forall q | q in db.outbox :: db.outbox[q].id != id }

  function Attempted(row: OutboxRow, id: nat, error: string): OutboxRow {
    if row.id == id then row.(attempts := row.attempts + 1, lastError := Some(error)) else row
  }
}
