/** The publication outbox over runs of the store: rows are told apart by their ids, and what a
    removal owes the relays stays queued until it is completed. */
module OutboxRuns {
  import opened Tables
  import opened CommunityRemoval
  import opened StoreSteps
  import opened StoreRuns

  ghost predicate DistinctIds(out: map<Publication, OutboxRow>) {
    forall p, q | p in out && q in out && out[p].id == out[q].id :: p == q
  }

  lemma RemovalKeepsDistinctIds(db: Tables, db': Tables, step: Step)
    requires DistinctIds(db.outbox) && Next(db, db', step) && step.RemoveCommunity? && step.ok
    ensures DistinctIds(db'.outbox)
  {
    hide Removable, Operations, Tombstones;
    forall p, q | p in db'.outbox && q in db'.outbox && db'.outbox[p].id == db'.outbox[q].id ensures p == q {
      assert p in db.outbox || (Owed(db, step.community, p) && db'.outbox[p].id == step.ids.row(p));
      assert q in db.outbox || (Owed(db, step.community, q) && db'.outbox[q].id == step.ids.row(q));
    }
  }

  lemma StepKeepsDistinctIds(db: Tables, db': Tables, step: Step)
    requires DistinctIds(db.outbox) && Next(db, db', step)
    ensures DistinctIds(db'.outbox)
  {
    if step.RemoveCommunity? && step.ok {
      RemovalKeepsDistinctIds(db, db', step);
    } else {
      OtherOutboxes(db, db', step);
      hide Next;
    }
  }

  /** What the steps other than a removal do to the outbox. */
  lemma OtherOutboxes(db: Tables, db': Tables, step: Step)
    requires Next(db, db', step) && !(step.RemoveCommunity? && step.ok)
    ensures step.Enqueue? ==> EnqueueStep(db, db', step.community, step.publication, step.now, step.rowId, step.ok)
    ensures step.CompletePublication? ==> CompletePublicationStep(db, db', step.rowId)
    ensures step.FailPublication? ==> FailPublicationStep(db, db', step.rowId, step.reason)
    ensures !step.Enqueue? && !step.CompletePublication? && !step.FailPublication? ==> db'.outbox == db.outbox
  {
    hide CanPurge, Acceptable, Detached;
  }

  lemma {:induction false} RowIdsStayDistinct(run: seq<Tables>, steps: seq<Step>, i: nat)
    requires IsRun(run, steps) && i < |run|
    ensures DistinctIds(run[i].outbox)
  {
    if i > 0 {
      RowIdsStayDistinct(run, steps, i - 1);
      hide Next, DistinctIds;
      assert Next(run[i - 1], run[i - 1 + 1], steps[i - 1]);
      StepKeepsDistinctIds(run[i - 1], run[i], steps[i - 1]);
    }
  }

  /** So completing a queued row removes exactly that publication, in any state of any run. */
  lemma CompletionRemovesOne(run: seq<Tables>, steps: seq<Step>, i: nat, p: Publication)
    requires IsRun(run, steps) && i < |steps|
    requires p in run[i].outbox && steps[i] == CompletePublication(run[i].outbox[p].id)
    ensures run[i + 1].outbox == run[i].outbox - {p}
  {
    RowIdsStayDistinct(run, steps, i);
    assert Next(run[i], run[i + 1], steps[i]);
  }

  /** The row is queued under the id, for this community, since that time. */
  ghost predicate StillQueued(db: Tables, p: Publication, row: OutboxRow) {
    && p in db.outbox && db.outbox[p].id == row.id && db.outbox[p].community == row.community
    && db.outbox[p].created == row.created && row.attempts <= db.outbox[p].attempts
  }

  lemma StepKeepsQueued(db: Tables, db': Tables, step: Step, p: Publication, row: OutboxRow)
    requires StillQueued(db, p, row) && Next(db, db', step) && step != CompletePublication(row.id)
    ensures StillQueued(db', p, row)
  {
    if step.RemoveCommunity? && step.ok {
      hide Removable, Operations, Tombstones;
      assert db'.outbox[p] == db.outbox[p];
    } else {
      OtherOutboxes(db, db', step);
      hide Next;
    }
  }

  lemma {:induction false} StaysQueued(run: seq<Tables>, steps: seq<Step>, i: nat, j: nat, p: Publication)
    requires IsRun(run, steps) && i <= j < |run| && p in run[i].outbox
    requires forall k | i <= k < j :: steps[k] != CompletePublication(run[i].outbox[p].id)
    ensures StillQueued(run[j], p, run[i].outbox[p])
    decreases j
  {
    if i < j {
      StaysQueued(run, steps, i, j - 1, p);
      hide Next, StillQueued;
      assert Next(run[j - 1], run[j - 1 + 1], steps[j - 1]);
      StepKeepsQueued(run[j - 1], run[j], steps[j - 1], p, run[i].outbox[p]);
    }
  }

  /** What a removal owes the relays is queued by it, and stays queued, under the same id and with all
      its attempts counted, until that very row is completed. */
  lemma OwedStaysQueued(run: seq<Tables>, steps: seq<Step>, i: nat, j: nat, p: Publication)
    requires IsRun(run, steps) && i < j < |run| && steps[i].RemoveCommunity? && steps[i].ok
    requires Owed(run[i], steps[i].community, p)
    ensures p in run[i + 1].outbox
    ensures (forall k | i < k < j :: steps[k] != CompletePublication(run[i + 1].outbox[p].id)) ==>
      StillQueued(run[j], p, run[i + 1].outbox[p])
  {
    assert Next(run[i], run[i + 1], steps[i]);
    RemovalQueues(run[i], run[i + 1], steps[i], p);
    hide Next, StillQueued;
    if forall k | i < k < j :: steps[k] != CompletePublication(run[i + 1].outbox[p].id) {
      StaysQueued(run, steps, i + 1, j, p);
    }
  }

  lemma RemovalQueues(db: Tables, db': Tables, step: Step, p: Publication)
    requires Next(db, db', step) && step.RemoveCommunity? && step.ok && Owed(db, step.community, p)
    ensures p in db'.outbox
  {
    hide Removable, Operations, Tombstones;
  }
}
