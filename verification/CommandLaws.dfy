/** What a committed command changes, table by table and column by column, on the tables before and
    after; that enabling undoes deleting; and where retention rows come from, over every run. */
module CommandLaws {
  import opened Operation
  import opened Basics
  import opened Tables
  import opened CommunityRemoval
  import opened StoreSteps
  import opened StoreRuns

  /** The agents other than one are as they were. */
  ghost predicate OnlyAgent(db: Tables, db': Tables, a: AgentId) {
    forall b | b != a :: (b in db'.agents <==> b in db.agents) && (b in db.agents ==> db'.agents[b] == db.agents[b])
  }

  ghost predicate OnlyRetention(db: Tables, db': Tables, a: AgentId) {
    forall b | b != a ::
      (b in db'.retention <==> b in db.retention) && (b in db.retention ==> db'.retention[b] == db.retention[b])
  }

  /** A requested value is stored, and without a request the old one stays. */
  predicate Requested(request: Option<string>, was: string, is_: string) {
    if request.Some? then is_ == request.value else is_ == was
  }

  /** A creation stores exactly the given row, under an id that had none. */
  lemma CreateLaw(db: Tables, db': Tables, c: Command)
    requires CommandStep(db, db', c, New) && c.mutation.Create?
    ensures c.kind == CreateAgent && c.agent == Some(c.target)
    ensures c.target !in db.agents && c.target in db'.agents && db'.agents[c.target] == c.mutation.agent
    ensures c.mutation.agent.community in db.communities
    ensures OnlyAgent(db, db', c.target) && db'.retention == db.retention
  {
    var valid :| Admissible(db, c, valid);
  }

  /** An update gives name, prompt and runtime each the requested value or the old one, and changes
      neither community nor desired state nor retention. */
  lemma UpdateLaw(db: Tables, db': Tables, c: Command)
    requires CommandStep(db, db', c, New) && c.mutation.Update?
    ensures c.kind == UpdateAgent && c.agent == Some(c.target)
    ensures c.target in db.agents && c.target in db'.agents
    ensures var a, a' := db.agents[c.target], db'.agents[c.target];
      && Requested(c.mutation.name, a.name, a'.name)
      && Requested(c.mutation.prompt, a.prompt, a'.prompt)
      && Requested(c.mutation.runtime, a.runtime, a'.runtime)
      && a'.community == a.community && a'.desired == a.desired
    ensures OnlyAgent(db, db', c.target) && db'.retention == db.retention
  {
    var valid :| Admissible(db, c, valid);
  }

  /** A change of state changes the desired state and nothing else of the agent. A delete records when
      it was made and its deadline, an enable forgets that, and the others leave it. */
  lemma SetStateLaw(db: Tables, db': Tables, c: Command)
    requires CommandStep(db, db', c, New) && c.mutation.SetState?
    ensures c.agent == Some(c.target) && c.target in db.agents && c.target in db'.agents
    ensures var a, a' := db.agents[c.target], db'.agents[c.target];
      && a'.community == a.community && a'.name == a.name && a'.prompt == a.prompt && a'.runtime == a.runtime
      && a'.desired == c.mutation.desired
    ensures match c.kind
      case EnableAgent => c.mutation.desired == Enabled && c.target !in db'.retention
      case DisableAgent => c.mutation.desired == Disabled && db'.retention == db.retention
      case PurgeAgent => c.mutation.desired == Deleted && db'.retention == db.retention
      case DeleteAgent =>
        && c.mutation.desired == Deleted && c.mutation.deadline.Some? && c.target in db'.retention
        && db'.retention[c.target].deletedAt == c.now && db'.retention[c.target].purgeAfter == c.mutation.deadline.value
      case _ => false
    ensures OnlyAgent(db, db', c.target) && OnlyRetention(db, db', c.target)
  {
    var valid :| Admissible(db, c, valid);
  }

  /** Every committed command adds one pending operation, its key and one audit row, links its draft,
      and leaves all other tables alone. */
  lemma RecordLaw(db: Tables, db': Tables, c: Command)
    requires CommandStep(db, db', c, New)
    ensures c.op !in db.operations && c.op in db'.operations
    ensures var row := db'.operations[c.op];
      && row.kind == c.kind && row.status == Pending && row.agent == Some(c.target) && row.error == None
      && row.created == c.now && row.updated == c.now
    ensures forall o | o != c.op ::
      (o in db'.operations <==> o in db.operations) && (o in db.operations ==> db'.operations[o] == db.operations[o])
    ensures c.key !in db.keys && c.key in db'.keys
    ensures db'.keys[c.key].hash == c.hash && db'.keys[c.key].op == c.op
    ensures forall k | k != c.key ::
      (k in db'.keys <==> k in db.keys) && (k in db.keys ==> db'.keys[k] == db.keys[k])
    ensures db'.drafts.Keys == db.drafts.Keys
    ensures forall i | i in db.drafts ::
      && db'.drafts[i].document == db.drafts[i].document
      && db'.drafts[i].promoted == if c.draft == Some(i) then Some(c.op) else db.drafts[i].promoted
    ensures c.draft.Some? ==> c.draft.value in db.drafts && db.drafts[c.draft.value].promoted == None
    ensures db'.audits == db.audits + [Accepted(c.op)]
    ensures db'.communities == db.communities && db'.draftKeys == db.draftKeys && db'.tombstones == db.tombstones
    ensures db'.projections == db.projections && db'.outbox == db.outbox
  {
    var valid :| Admissible(db, c, valid);
    hide Mutated, Retained;
  }

  /** Enabling undoes deleting: the agent is as it was, but enabled, and its retention is forgotten. */
  lemma EnableUndoesDelete(db: Tables, deleted: Tables, enabled: Tables, d: Command, e: Command)
    requires CommandStep(db, deleted, d, New) && d.kind == DeleteAgent
    requires CommandStep(deleted, enabled, e, New) && e.kind == EnableAgent && e.target == d.target
    ensures d.target in db.agents && d.target in deleted.retention && d.target !in enabled.retention
    ensures enabled.agents == db.agents[d.target := db.agents[d.target].(desired := Enabled)]
    ensures enabled.retention == db.retention - {d.target}
  {
    KindIsState(db, deleted, d);
    KindIsState(deleted, enabled, e);
    SetStateLaw(db, deleted, d);
    SetStateLaw(deleted, enabled, e);
    hide CommandStep;
    AgentsUndone(db.agents, deleted.agents, enabled.agents, d.target);
    RetentionUndone(db.retention, deleted.retention, enabled.retention, d.target);
  }

  lemma AgentsUndone(agents: map<AgentId, Agent>, deleted: map<AgentId, Agent>, enabled: map<AgentId, Agent>,
                     a: AgentId)
    requires a in agents && a in deleted && a in enabled
    requires forall b | b != a :: (b in deleted <==> b in agents) && (b in agents ==> deleted[b] == agents[b])
    requires forall b | b != a :: (b in enabled <==> b in deleted) && (b in deleted ==> enabled[b] == deleted[b])
    requires enabled[a] == agents[a].(desired := Enabled)
    ensures enabled == agents[a := agents[a].(desired := Enabled)]
  {
  }

  lemma RetentionUndone(rows: map<AgentId, Retention>, deleted: map<AgentId, Retention>,
                        enabled: map<AgentId, Retention>, a: AgentId)
    requires a !in enabled
    requires forall b | b != a :: (b in deleted <==> b in rows) && (b in rows ==> deleted[b] == rows[b])
    requires forall b | b != a :: (b in enabled <==> b in deleted) && (b in deleted ==> enabled[b] == deleted[b])
    ensures enabled == rows - {a}
  {
  }

  lemma KindIsState(db: Tables, db': Tables, c: Command)
    requires CommandStep(db, db', c, New) && (c.kind == DeleteAgent || c.kind == EnableAgent)
    ensures c.mutation.SetState?
  {
    var valid :| Admissible(db, c, valid);
  }

  // Where retention rows come from.

  predicate Commits(step: Step, kind: Kind, a: AgentId) {
    step.Submit? && step.reply.New? && step.command.kind == kind && step.command.target == a
  }

  predicate DeletesWith(step: Step, a: AgentId, row: Retention) {
    && Commits(step, DeleteAgent, a) && step.command.mutation.SetState?
    && row.deletedAt == step.command.now && step.command.mutation.deadline == Some(row.purgeAfter)
  }

  lemma SubmitRetention(db: Tables, db': Tables, c: Command, a: AgentId)
    requires CommandStep(db, db', c, New) && a in db'.retention
    ensures || DeletesWith(Submit(c, New), a, db'.retention[a])
            || (a in db.retention && db'.retention[a] == db.retention[a] && !Commits(Submit(c, New), EnableAgent, a))
  {
    if c.mutation.Create? {
      CreateLaw(db, db', c);
    } else if c.mutation.Update? {
      UpdateLaw(db, db', c);
    } else {
      SetStateLaw(db, db', c);
    }
    hide CommandStep;
  }

  lemma OtherRetention(db: Tables, db': Tables, step: Step, a: AgentId)
    requires Next(db, db', step) && !(step.Submit? && step.reply.New?) && a in db'.retention
    ensures a in db.retention && db'.retention[a] == db.retention[a]
  {
    hide Outbox, Operations, Tombstones, Committed;
  }

  lemma RetentionStep(db: Tables, db': Tables, step: Step, a: AgentId)
    requires Next(db, db', step) && a in db'.retention
    ensures || DeletesWith(step, a, db'.retention[a])
            || (a in db.retention && db'.retention[a] == db.retention[a] && !Commits(step, EnableAgent, a))
  {
    hide CommandStep, DeletesWith;
    if step.Submit? && step.reply.New? {
      SubmitRetention(db, db', step.command, a);
    } else {
      OtherRetention(db, db', step, a);
    }
  }

  /** In every run, a retention row was written by a delete of its agent, and the agent was not
      enabled since. */
  lemma {:induction false} RetentionIsOfTheDelete(run: seq<Tables>, steps: seq<Step>, n: nat, a: AgentId)
    returns (i: nat)
    requires IsRun(run, steps) && n < |run| && a in run[n].retention
    ensures i < n && DeletesWith(steps[i], a, run[n].retention[a])
    ensures forall j | i < j < n :: !Commits(steps[j], EnableAgent, a)
  {
    assert n > 0;
    assert Next(run[n - 1], run[n - 1 + 1], steps[n - 1]);
    RetentionStep(run[n - 1], run[n], steps[n - 1], a);
    hide Next, DeletesWith, Commits;
    if DeletesWith(steps[n - 1], a, run[n].retention[a]) {
      i := n - 1;
    } else {
      i := RetentionIsOfTheDelete(run, steps, n - 1, a);
    }
  }
}
