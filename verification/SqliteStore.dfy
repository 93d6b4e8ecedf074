/** The lifecycle store. Each method works on a copy of the tables, its transaction, and either
    commits all of it or leaves the database as it was. `healthy` says whether SQLite carries out
    the statements and the commit; ids and clock readings are parameters. */
module SqliteStore {
  import opened Operation
  import opened Basics
  import opened Tables
  import opened CommunityRemoval
  import opened StoreSteps

  /** The personas projected for a community. */
  function PersonasOf(db: Tables, c: CommunityId): (personas: set<string>)
    ensures forall q :: q in personas <==> Persona(c, q) in db.projections
  {
    var personas := set p | p in db.projections && p.Persona? && p.community == c :: p.persona;
    assert forall q :: Persona(c, q) in db.projections ==> Persona(c, q).persona in personas;
    personas
  }

  function MembersOf(db: Tables, c: CommunityId): (members: set<AgentId>)
    ensures forall a :: a in members <==> IsMember(db, c, a)
  {
    set a | a in db.agents && db.agents[a].community == c
  }

  predicate Ascending(s: seq<AgentId>) { forall i, j | 0 <= i < j < |s| :: s[i] < s[j] }

  predicate IsSmallest(a: AgentId, s: set<AgentId>) { a in s && forall b | b in s :: a <= b }

  lemma {:induction false} SmallestExists(s: set<AgentId>)
    requires s != {}
    ensures exists a :: IsSmallest(a, s)
  {
    var x :| x in s;
    if s == {x} {
      assert IsSmallest(x, s);
    } else {
      var rest := s - {x};
      assert s == rest + {x};
      assert rest != {};
      SmallestExists(rest);
      var a :| IsSmallest(a, rest);
      assert IsSmallest(if a < x then a else x, s);
    }
  }

  function Elements(s: seq<AgentId>): set<AgentId> { set a | a in s }

  ghost predicate AllBelow(ids: seq<AgentId>, rest: set<AgentId>) {
    forall a, b | a in ids && b in rest :: a < b
  }

  lemma AppendSmallest(ids: seq<AgentId>, rest: set<AgentId>, a: AgentId)
    requires Ascending(ids) && AllBelow(ids, rest) && IsSmallest(a, rest)
    ensures Ascending(ids + [a]) && AllBelow(ids + [a], rest - {a}) && Elements(ids + [a]) == Elements(ids) + {a}
  {
    forall i, j | 0 <= i < j < |ids + [a]| ensures (ids + [a])[i] < (ids + [a])[j] {
      assert ids[i] in ids;
    }
  }

  /** The elements of a set in ascending order. */
  method Sorted(s: set<AgentId>) returns (ids: seq<AgentId>)
    ensures Ascending(ids) && Elements(ids) == s
  {
    var rest := s;
    ids := [];
    while rest != {}
      invariant Ascending(ids) && AllBelow(ids, rest) && Elements(ids) + rest == s
      decreases |rest|
    {
      SmallestExists(rest);
      var a :| IsSmallest(a, rest);
      AppendSmallest(ids, rest, a);
      assert a in rest;
      hide Ascending, AllBelow, IsSmallest, Elements;
      ids, rest := ids + [a], rest - {a};
    }
  }

  /** No operation id drawn for the community's agents is taken. */
  ghost predicate FreshOperations(db: Tables, c: CommunityId, ids: Ids) {
    && (forall a | IsMember(db, c, a) :: ids.op(a) !in db.operations)
    && (forall a, b | IsMember(db, c, a) && IsMember(db, c, b) && ids.op(a) == ids.op(b) :: a == b)
  }

  /** No id that a removal draws is taken. */
  ghost predicate FreshFor(db: Tables, c: CommunityId, ids: Ids) {
    FreshOperations(db, c, ids) && FreshOwed(db, c, ids)
  }

  class SqliteStore {
    var db: Tables

    constructor ()
      ensures db == EMPTY
    {
      db := EMPTY;
    }

    /** The part of a command's transaction that changes the agent and its retention. */
    method Mutate(start: Tables, c: Command, valid: Agent -> bool) returns (r: Result<Tables>)
      ensures r.Ok? <==> CanMutate(start, c, valid)
      ensures r.Ok? ==>
        r.value == start.(agents := start.agents[c.target := Mutated(start, c)], retention := Retained(start, c))
    {
      match c.mutation {
        case Create(agent) =>
          if c.kind != CreateAgent || c.agent != Some(c.target) { return Err(Invalid); }
          if !valid(agent) { return Err(Invalid); }
          if c.target in start.agents || agent.community !in start.communities { return Err(Conflict); }
          return Ok(start.(agents := start.agents[c.target := agent]));
        case Update(name, prompt, runtime) =>
          if c.kind != UpdateAgent || c.agent != Some(c.target) { return Err(Invalid); }
          if c.target !in start.agents { return Err(NotFound); }
          var agent := start.agents[c.target];
          if name.Some? { agent := agent.(name := name.value); }
          if prompt.Some? { agent := agent.(prompt := prompt.value); }
          if runtime.Some? { agent := agent.(runtime := runtime.value); }
          if !valid(agent) { return Err(Invalid); }
          return Ok(start.(agents := start.agents[c.target := agent]));
        case SetState(desired, deadline) =>
          var expected: Desired;
          match c.kind {
            case EnableAgent => expected := Enabled;
            case DisableAgent => expected := Disabled;
            case DeleteAgent | PurgeAgent => expected := Deleted;
            case _ => return Err(Invalid);
          }
          if c.agent != Some(c.target) || desired != expected { return Err(Invalid); }
          if c.target !in start.agents { return Err(NotFound); }
          var tx := start.(agents := start.agents[c.target := start.agents[c.target].(desired := desired)]);
          if c.kind == DeleteAgent {
            if deadline.None? { return Err(Invalid); }
            tx := tx.(retention := tx.retention[c.target := Retention(c.now, deadline.value)]);
          } else if c.kind == EnableAgent {
            tx := tx.(retention := tx.retention - {c.target});
          }
          return Ok(tx);
      }
    }

    /** Commits an agent mutation with its operation, idempotency key, draft link and audit row, or
        replays the operation of a key that was used before with the same hash. */
    method ApplyAgentCommand(c: Command, valid: Agent -> bool, healthy: bool)
      returns (r: Result<(OpId, OperationRow)>, replayed: bool)
      requires c.key in db.keys ==> db.keys[c.key].op in db.operations
      modifies `db
      ensures CommandStep(old(db), db, c, if r.Err? then Refused else if replayed then Replay(r.value.0) else New)
      ensures c.key in old(db).keys && old(db).keys[c.key].hash != c.hash ==> r == Err(Conflict)
      ensures c.key !in old(db).keys ==> (r.Ok? <==> healthy && Admissible(old(db), c, valid))
      ensures r.Ok? && !replayed ==> r.value == (c.op, NewOperation(c))
      ensures r.Ok? && replayed ==> r.value.0 in old(db).operations && r.value.1 == old(db).operations[r.value.0]
    {
      replayed := false;
      if c.key in db.keys {
        var row := db.keys[c.key];
        if row.hash != c.hash { return Err(Conflict), false; }
        return Ok((row.op, db.operations[row.op])), true;
      }
      var mutated := Mutate(db, c, valid);
      if mutated.Err? { return Err(mutated.error), false; }
      hide CanMutate, Mutated, Retained;
      var tx := mutated.value;
      if c.op in tx.operations { return Err(Conflict), false; }
      tx := tx.(operations := tx.operations[c.op := OperationRow(c.kind, Pending, c.agent, None, c.now, c.now)]);
      tx := tx.(keys := tx.keys[c.key := KeyRow(c.hash, c.op)]);
      if c.draft.Some? {
        if c.draft.value !in tx.drafts || tx.drafts[c.draft.value].promoted.Some? { return Err(Conflict), false; }
        tx := tx.(drafts := tx.drafts[c.draft.value := tx.drafts[c.draft.value].(promoted := Some(c.op))]);
      }
      tx := tx.(audits := tx.audits + [Accepted(c.op)]);
      if !healthy { return Err(Database), false; }
      assert Admissible(db, c, valid);
      hide Admissible;
      db := tx;
      return Ok((c.op, tx.operations[c.op])), false;
    }

    /** Saves a draft under an idempotency key, or replays the draft of a used key. */
    method ApplyDraftCommand(id: DraftId, document: string, key: Key, hash: string, healthy: bool)
      returns (r: Result<string>, replayed: bool)
      requires key in db.draftKeys ==> db.draftKeys[key].draft in db.drafts
      modifies `db
      ensures DraftStep(old(db), db, id, document, key, hash, r.Ok? && !replayed)
      ensures key in old(db).draftKeys ==>
        (r.Ok? <==> old(db).draftKeys[key].hash == hash) &&
        (r.Ok? ==> replayed && r.value == old(db).drafts[old(db).draftKeys[key].draft].document)
      ensures key !in old(db).draftKeys ==> (r.Ok? <==> healthy && id !in old(db).drafts)
      ensures key !in old(db).draftKeys && r.Ok? ==> r.value == document && !replayed
    {
      if key in db.draftKeys {
        var row := db.draftKeys[key];
        if row.hash != hash { return Err(Conflict), false; }
        return Ok(db.drafts[row.draft].document), true;
      }
      if id in db.drafts || !healthy { return Err(Database), false; }
      var tx := db.(drafts := db.drafts[id := Draft(document, None)]);
      tx := tx.(draftKeys := tx.draftKeys[key := DraftKeyRow(hash, id)]);
      tx := tx.(audits := tx.audits + [DraftSaved(id)]);
      db := tx;
      return Ok(document), false;
    }

    method TransitionOperation(op: OpId, next: Status, error: Option<string>, now: int, healthy: bool)
      returns (r: Result<()>)
      modifies `db
      ensures TransitionStep(old(db), db, op, next, error, now, r.Ok?)
      ensures healthy && op in old(db).operations && old(db).operations[op].status.CanTransitionTo(next) ==> r.Ok?
      ensures op !in old(db).operations ==> r.Err?
    {
      if !healthy { return Err(Database); }
      if op !in db.operations { return Err(NotFound); }
      var row := db.operations[op];
      if !row.status.CanTransitionTo(next) { return Err(Conflict); }
      db := db.(operations := db.operations[op := row.(status := next, error := error, updated := now)]);
      return Ok(());
    }

    /** Success, audit, tombstone and deletion of the agent in one transaction. */
    method CompletePurge(a: AgentId, op: OpId, now: int, healthy: bool) returns (r: Result<()>)
      modifies `db
      ensures r.Ok? <==> healthy && CanPurge(old(db), a, op)
      ensures PurgeStep(old(db), db, a, op, now, r.Ok?)
    {
      var tx := db;
      if op !in tx.operations || tx.operations[op].agent != Some(a) || tx.operations[op].kind != PurgeAgent {
        return Err(NotFound);
      }
      if !tx.operations[op].status.CanTransitionTo(Succeeded) { return Err(Conflict); }
      if a !in tx.agents { return Err(NotFound); }
      if tx.agents[a].desired != Deleted { return Err(Conflict); }
      var row := tx.operations[op].(status := Succeeded, error := None, updated := now);
      tx := tx.(operations := tx.operations[op := row]);
      tx := tx.(audits := tx.audits + [Completed(op, true)]);
      if a !in tx.tombstones { tx := tx.(tombstones := tx.tombstones[a := op]); }
      tx := WithoutAgent(tx, a);
      if !healthy { return Err(Database); }
      db := tx;
      return Ok(());
    }

    /** The community's agents in id order. */
    method AgentsOf(c: CommunityId) returns (agents: seq<AgentId>)
      ensures Ascending(agents)
      ensures forall a :: a in agents <==> IsMember(db, c, a)
    {
      agents := Sorted(MembersOf(db, c));
      assert forall a :: a in agents <==> a in Elements(agents);
    }

    /** The first loop: every agent must be deleted and completely shut down. */
    method AllShutDown(agents: seq<AgentId>) returns (ok: bool)
      requires forall a | a in agents :: a in db.agents
      ensures ok <==> forall a | a in agents :: db.agents[a].desired.Deleted? && ShutDown(db, a)
    {
      for i := 0 to |agents|
        invariant forall a | a in agents[..i] :: db.agents[a].desired.Deleted? && ShutDown(db, a)
      {
        if db.agents[agents[i]].desired != Deleted || !ShutDown(db, agents[i]) { return false; }
        assert agents[..i + 1] == agents[..i] + [agents[i]];
      }
      assert agents[..|agents|] == agents;
      return true;
    }

    /** The second loop: withdraw, record, bury and delete each agent. */
    method PurgeAgents(c: CommunityId, agents: seq<AgentId>, now: int, ids: Ids) returns (ok: bool, tx: Tables)
      requires Ascending(agents)
      ensures ok ==> Progress(db, tx, c, Elements(agents), {}, now, ids)
      ensures ok <==> Drawable(db, agents, ids) && FreshDue(db, c, Elements(agents), {}, ids)
    {
      tx := db;
      SnapshotProgress(db, c, now, ids);
      NoRowsAreFresh(db, c, ids);
      assert agents[..0] == [] && Elements(agents[..0]) == {};
      for i := 0 to |agents|
        invariant Progress(db, tx, c, Elements(agents[..i]), {}, now, ids)
        invariant Drawable(db, agents[..i], ids)
        invariant FreshDue(db, c, Elements(agents[..i]), {}, ids)
      {
        hide Progress, FreshDue, CanWithdraw;
        var a := agents[i];
        PrefixElements(agents, i);
        TakenIds(db, tx, c, agents, i, now, ids);
        AgentIsFresh(db, tx, c, Elements(agents[..i]), a, now, ids);
        if !CanWithdraw(tx, c, a, now, ids) {
          NotFreshSoFar(db, c, agents, i + 1, ids);
          return false, tx;
        }
        if ids.op(a) in tx.operations { return false, tx; }
        AgentStep(db, tx, c, Elements(agents[..i]), a, now, ids);
        tx := AgentGone(tx, c, a, now, ids);
      }
      assert agents[..|agents|] == agents;
      return true, tx;
    }

    /** The third loop: withdraw each projected persona. */
    method WithdrawPersonas(c: CommunityId, start: Tables, gone: set<AgentId>, now: int, ids: Ids)
      returns (ok: bool, tx: Tables)
      requires Progress(db, start, c, gone, {}, now, ids)
      requires FreshDue(db, c, gone, {}, ids)
      ensures ok ==> Progress(db, tx, c, gone, PersonasOf(db, c), now, ids)
      ensures ok <==> FreshDue(db, c, gone, PersonasOf(db, c), ids)
    {
      tx := start;
      var rest := PersonasOf(db, c);
      ghost var told: set<string> := {};
      while rest != {}
        invariant told + rest == PersonasOf(db, c)
        invariant Progress(db, tx, c, gone, told, now, ids)
        invariant FreshDue(db, c, gone, told, ids)
        decreases |rest|
      {
        hide Progress, FreshDue, CanQueue;
        var q :| q in rest;
        assert q in PersonasOf(db, c);
        var p := TombstonePersona(q, db.projections[Persona(c, q)]);
        PersonaIsFresh(db, tx, c, gone, told, q, now, ids);
        if !CanQueue(tx.outbox, p, ids.row(p)) {
          ghost var all := PersonasOf(db, c);
          if FreshDue(db, c, gone, all, ids) {
            FewerAreFresh(db, c, gone, told + {q}, gone, all, ids);
          }
          return false, tx;
        }
        PersonaStep(db, tx, c, gone, told, q, now, ids);
        tx := Queued(tx, c, p, now, ids.row(p));
        told, rest := told + {q}, rest - {q};
      }
      assert told == PersonasOf(db, c);
      return true, tx;
    }

    /** Removes a community with its deleted agents, all or nothing. */
    method DeleteCommunity(c: CommunityId, now: int, ids: Ids, healthy: bool) returns (r: Result<seq<AgentId>>)
      modifies `db
      ensures r.Ok? <==> healthy && Removable(old(db), c) && FreshFor(old(db), c, ids)
      ensures RemovalStep(old(db), db, c, if r.Ok? then Elements(r.value) else {}, now, ids, r.Ok?)
      ensures r.Ok? ==> Ascending(r.value)
      ensures c !in old(db).communities ==> r == Err(NotFound)
      ensures c in old(db).communities && !Removable(old(db), c) ==> r == Err(Conflict)
    {
      if c !in db.communities { return Err(NotFound); }
      var agents := AgentsOf(c);
      var ok := AllShutDown(agents);
      assert ok <==> Removable(db, c) by {
        forall a ensures a in agents <==> a in db.agents && db.agents[a].community == c {
          assert IsMember(db, c, a) <==> a in agents;
        }
      }
      hide Progress, Removal, Removable, FreshDue, FreshOwed;
      if !ok { return Err(Conflict); }
      assert forall a :: a in Elements(agents) <==> IsMember(db, c, a);
      DrawableIsFresh(db, c, agents, ids);
      OwedRowsAreFresh(db, c, Elements(agents), PersonasOf(db, c), ids);
      if FreshOwed(db, c, ids) {
        FewerAreFresh(db, c, Elements(agents), {}, Elements(agents), PersonasOf(db, c), ids);
      }
      var tx;
      ok, tx := PurgeAgents(c, agents, now, ids);
      if !ok { return Err(Database); }
      ok, tx := WithdrawPersonas(c, tx, Elements(agents), now, ids);
      if !ok || !healthy { return Err(Database); }
      ProgressIsRemoval(db, tx, c, Elements(agents), PersonasOf(db, c), now, ids);
      tx := tx.(communities := tx.communities - {c});
      db := tx;
      return Ok(agents);
    }

    /** Queues a publication once: a pending row for the same action, subject and scope is kept. A
        row id that is taken makes the statement fail. */
    method EnqueuePublication(c: CommunityId, p: Publication, now: int, id: nat, healthy: bool) returns (r: Result<()>)
      modifies `db
      ensures EnqueueStep(old(db), db, c, p, now, id, r.Ok?)
      ensures r.Ok? <==> healthy && (p in old(db).outbox || RowIdIsFree(old(db), id))
    {
      if !healthy { return Err(Database); }
      if p in db.outbox { return Ok(()); }
      if !RowIdIsFree(db, id) { return Err(Database); }
      db := db.(outbox := db.outbox[p := OutboxRow(id, c, now, 0, None)]);
      return Ok(());
    }

    method CompletePublication(id: nat)
      modifies `db
      ensures CompletePublicationStep(old(db), db, id)
    {
      db := db.(outbox := map q | q in db.outbox && db.outbox[q].id != id :: db.outbox[q]);
    }

    method FailPublication(id: nat, error: string)
      modifies `db
      ensures FailPublicationStep(old(db), db, id, error)
    {
      db := db.(outbox := map q | q in db.outbox :: Attempted(db.outbox[q], id, error));
    }

    method AppendAudit(audit: Audit, healthy: bool) returns (r: Result<()>)
      requires !audit.Accepted?
      modifies `db
      ensures SideStep(old(db), db)
      ensures r.Ok? <==> healthy
      ensures db == if healthy then old(db).(audits := old(db).audits + [audit]) else old(db)
    {
      if !healthy { return Err(Database); }
      db := db.(audits := db.audits + [audit]);
      return Ok(());
    }

    /** An upsert: an absent row is inserted. */
    method PutAgent(a: AgentId, agent: Agent, valid: Agent -> bool, healthy: bool) returns (r: Result<()>)
      modifies `db
      ensures r.Ok? <==> healthy && valid(agent) && agent.community in old(db).communities
      ensures PutAgentStep(old(db), db, a, agent, r.Ok?)
    {
      if !valid(agent) { return Err(Invalid); }
      if agent.community !in db.communities || !healthy { return Err(Conflict); }
      db := db.(agents := db.agents[a := agent]);
      return Ok(());
    }
  }

  // Drawing operation ids for a list of agents.

  ghost predicate Drawable(db: Tables, agents: seq<AgentId>, ids: Ids) {
    && (forall a | a in agents :: ids.op(a) !in db.operations)
    && (forall i, j | 0 <= i < j < |agents| :: ids.op(agents[i]) != ids.op(agents[j]))
  }

  lemma PrefixElements(agents: seq<AgentId>, i: nat)
    requires i < |agents| && Ascending(agents)
    ensures agents[..i + 1] == agents[..i] + [agents[i]]
    ensures Elements(agents[..i + 1]) == Elements(agents[..i]) + {agents[i]} && agents[i] !in Elements(agents[..i])
  {
  }

  lemma SnapshotProgress(db: Tables, c: CommunityId, now: int, ids: Ids)
    ensures Progress(db, db, c, {}, {}, now, ids)
  {
    assert db.agents - {} == db.agents && db.retention - {} == db.retention;
  }

  /** An id is taken in the transaction exactly when it was taken before or drawn for an earlier agent. */
  lemma TakenIds(db: Tables, tx: Tables, c: CommunityId, agents: seq<AgentId>, i: nat, now: int, ids: Ids)
    requires i < |agents| && Drawable(db, agents[..i], ids)
    requires Progress(db, tx, c, Elements(agents[..i]), {}, now, ids)
    ensures ids.op(agents[i]) !in tx.operations ==> Drawable(db, agents[..i + 1], ids)
    ensures ids.op(agents[i]) in tx.operations ==> !Drawable(db, agents, ids)
  {
    hide Outbox, Tombstones, Untouched;
    TakenId(db.operations, tx.operations, agents, i, now, ids);
    if ids.op(agents[i]) !in tx.operations { FreeId(db, tx.operations, agents, i, now, ids); }
  }

  lemma TakenId(ops: map<OpId, OperationRow>, ops': map<OpId, OperationRow>, agents: seq<AgentId>, i: nat, now: int,
                ids: Ids)
    requires i < |agents| && Operations(ops, ops', Elements(agents[..i]), now, ids)
    ensures ids.op(agents[i]) in ops' && ids.op(agents[i]) !in ops ==>
      exists j :: 0 <= j < i && ids.op(agents[j]) == ids.op(agents[i])
  {
    if ids.op(agents[i]) in ops' && ids.op(agents[i]) !in ops {
      var b :| b in Elements(agents[..i]) && ids.op(b) == ids.op(agents[i]);
      var j :| 0 <= j < i && agents[..i][j] == b;
      assert agents[j] == b;
    }
  }

  lemma FreeId(db: Tables, ops': map<OpId, OperationRow>, agents: seq<AgentId>, i: nat, now: int, ids: Ids)
    requires i < |agents| && Operations(db.operations, ops', Elements(agents[..i]), now, ids)
    requires Drawable(db, agents[..i], ids) && ids.op(agents[i]) !in ops'
    ensures Drawable(db, agents[..i + 1], ids)
  {
    var some := agents[..i + 1];
    assert some[..i] == agents[..i] && some == some[..i] + [agents[i]];
    forall a | a in some[..i] ensures ids.op(a) in ops' {
      assert a in Elements(agents[..i]);
    }
  }

  lemma NotFreshSoFar(db: Tables, c: CommunityId, agents: seq<AgentId>, n: nat, ids: Ids)
    requires n <= |agents| && !FreshDue(db, c, Elements(agents[..n]), {}, ids)
    ensures !FreshDue(db, c, Elements(agents), {}, ids)
  {
    hide FreshDue;
    var all := Elements(agents);
    if FreshDue(db, c, all, {}, ids) {
      FewerAreFresh(db, c, Elements(agents[..n]), {}, all, {}, ids);
    }
  }

  lemma DrawableIsFresh(db: Tables, c: CommunityId, agents: seq<AgentId>, ids: Ids)
    requires Ascending(agents) && forall a :: a in agents <==> IsMember(db, c, a)
    ensures Drawable(db, agents, ids) <==> FreshOperations(db, c, ids)
  {
    if FreshOperations(db, c, ids) {
      forall i, j | 0 <= i < j < |agents| ensures ids.op(agents[i]) != ids.op(agents[j]) {
        assert IsMember(db, c, agents[i]) && IsMember(db, c, agents[j]);
      }
    }
    if Drawable(db, agents, ids) {
      forall a, b | IsMember(db, c, a) && IsMember(db, c, b) && ids.op(a) == ids.op(b) ensures a == b {
        var i :| 0 <= i < |agents| && agents[i] == a;
        var j :| 0 <= j < |agents| && agents[j] == b;
      }
    }
  }
}
