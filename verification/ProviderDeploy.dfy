/** Deployment to an external provider: any number of callers interleave and may crash between
    any two steps. The repository makes `begin` an atomic insert-if-absent and `complete` a
    compare-and-set from the matching in-flight record. */
module ProviderDeploy {
  type RequestId = string
  type Caller = nat

  const MAX_REQUEST_ID: nat := 200

  datatype Intent = Intent(requestId: RequestId, providerId: string, sha256: string)
  datatype Receipt = Receipt(requestId: RequestId, providerId: string, sha256: string, externalId: string)
  datatype Record = Absent | InFlight(intent: Intent) | Complete(receipt: Receipt)

  datatype Phase =
    | Started
    | Acquired                      // its intent was inserted
    | Built                         // its payload was built
    | Deployed(externalId: string)  // the provider answered
    | Returned(receipt: Receipt)
    | Failed
    | Crashed

  datatype Call = Call(intent: Intent, phase: Phase)

  /** Everything about one request id: its record, and how often its payload was built and its
      provider invoked. */
  datatype Row = Row(record: Record, builds: nat, deploys: nat)

  datatype State = State(rows: map<RequestId, Row>, calls: map<Caller, Call>) {
    function RowOf(id: RequestId): Row { if id in rows then rows[id] else Row(Absent, 0, 0) }
  }

  predicate ValidRequestId(id: RequestId) { 0 < |id| <= MAX_REQUEST_ID }

  predicate ReceiptMatches(receipt: Receipt, intent: Intent) {
    && receipt.requestId == intent.requestId
    && receipt.providerId == intent.providerId
    && receipt.sha256 == intent.sha256
    && receipt.externalId != ""
  }

  ghost predicate Init(s: State) {
    s.rows == map[] && forall c | c in s.calls :: s.calls[c].phase == Started
  }

  // Steps of one caller, on the row of its request id.

  /** `begin`, and what the caller does with its answer. */
  function Begun(intent: Intent, row: Row): (Row, Phase) {
    if !ValidRequestId(intent.requestId) then (row, Failed)
    else match row.record
      case Absent => (row.(record := InFlight(intent)), Acquired)
      case InFlight(existing) => (row, Failed)
      case Complete(receipt) => (row, if ReceiptMatches(receipt, intent) then Returned(receipt) else Failed)
  }

  /** `complete`, and what the caller does with its answer. */
  function Completed(intent: Intent, row: Row, externalId: string): (Row, Phase) {
    var receipt := Receipt(intent.requestId, intent.providerId, intent.sha256, externalId);
    if row.record == InFlight(intent) then
      (row.(record := Complete(receipt)), if ReceiptMatches(receipt, intent) then Returned(receipt) else Failed)
    else (row, Failed)
  }

  /** A crash or a storage failure may end a call before or after any of its steps. */
  ghost predicate RowStep(intent: Intent, row: Row, phase: Phase, row': Row, phase': Phase) {
    match phase
    case Started => (row', phase') == Begun(intent, row) || Stops(row, row', phase')
    case Acquired =>
      // The payload closure runs; it may fail.
      || (row' == row.(builds := row.builds + 1) && (phase' == Built || phase' == Failed))
      || Stops(row, row', phase')
    case Built =>
      // The provider runs; it may fail after having taken effect. An accepted answer names an agent.
      || (row' == row.(deploys := row.deploys + 1) &&
          (phase' == Failed || (phase'.Deployed? && phase'.externalId != "")))
      || Stops(row, row', phase')
    case Deployed(externalId) =>
      // The caller may also die after the receipt was committed and before it returns.
      || (row', phase') == Completed(intent, row, externalId)
      || Stops(Completed(intent, row, externalId).0, row', phase')
      || Stops(row, row', phase')
    case _ => false
  }

  ghost predicate Stops(row: Row, row': Row, phase': Phase) {
    row' == row && (phase' == Crashed || phase' == Failed)
  }

  function After(s: State, c: Caller, row: Row, phase: Phase): State
    requires c in s.calls
  {
    State(s.rows[s.calls[c].intent.requestId := row], s.calls[c := s.calls[c].(phase := phase)])
  }

  ghost predicate StepOf(s: State, s': State, c: Caller, row: Row, phase: Phase)
    requires c in s.calls
  {
    var call := s.calls[c];
    RowStep(call.intent, s.RowOf(call.intent.requestId), call.phase, row, phase) && s' == After(s, c, row, phase)
  }

  ghost predicate Next(s: State, s': State) {
    exists c, row, phase :: c in s.calls && StepOf(s, s', c, row, phase)
  }

  ghost predicate IsRun(run: seq<State>) {
    run != [] && Init(run[0]) && forall i | 0 <= i < |run| - 1 :: Next(run[i], run[i + 1])
  }

  /** Beginning a completed request with the intent it was completed for returns its receipt, with any
      other intent it fails, and either way nothing changes. */
  lemma BeginningACompletedRequest(s: State, s': State, c: Caller, row: Row, phase: Phase)
    requires c in s.calls && s.calls[c].phase == Started && StepOf(s, s', c, row, phase)
    requires s.RowOf(s.calls[c].intent.requestId).record.Complete?
    ensures var intent := s.calls[c].intent;
      var receipt := s.RowOf(intent.requestId).record.receipt;
      && s'.RowOf(intent.requestId) == s.RowOf(intent.requestId)
      && (phase in {Returned(receipt), Failed, Crashed})
      && (ValidRequestId(intent.requestId) && ReceiptMatches(receipt, intent) ==>
            Begun(intent, s.RowOf(intent.requestId)).1 == Returned(receipt))
      && (!ReceiptMatches(receipt, intent) ==> !phase.Returned?)
  {
  }

  // The invariant.

  predicate Active(phase: Phase) { phase.Acquired? || phase.Built? || phase.Deployed? }

  predicate CallInv(row: Row, call: Call) {
    && (Active(call.phase) ==> row.record == InFlight(call.intent))
    && match call.phase
       case Acquired => row.builds == 0 && row.deploys == 0
       case Built => row.builds == 1 && row.deploys == 0
       case Deployed(externalId) => row.builds == 1 && row.deploys == 1 && externalId != ""
       case Returned(receipt) => row.record == Complete(receipt) && ReceiptMatches(receipt, call.intent)
       case _ => true
  }

  predicate RowInv(row: Row) {
    && row.deploys <= row.builds <= 1
    && (row.record.Absent? ==> row.builds == 0)
    && (row.record.Complete? ==> row.deploys == 1)
  }

  ghost predicate OneActive(s: State) {
    forall c, d | c in s.calls && d in s.calls && c != d &&
                  s.calls[c].intent.requestId == s.calls[d].intent.requestId ::
      !Active(s.calls[c].phase) || !Active(s.calls[d].phase)
  }

  ghost predicate Inv(s: State) {
    && (forall c | c in s.calls :: CallInv(s.RowOf(s.calls[c].intent.requestId), s.calls[c]))
    && (forall id :: RowInv(s.RowOf(id)))
    && OneActive(s)
  }

  lemma RowStepKeeps(call: Call, row: Row, row': Row, phase': Phase)
    requires CallInv(row, call) && RowInv(row) && RowStep(call.intent, row, call.phase, row', phase')
    ensures CallInv(row', Call(call.intent, phase')) && RowInv(row')
    ensures row.record.Complete? ==> row'.record == row.record
    ensures !Active(call.phase) && !row.record.Absent? ==> row' == row && !Active(phase')
    ensures Active(phase') ==> Active(call.phase) || row.record.Absent?
  {
  }

  lemma StepKeepsInv(s: State, s': State, c: Caller, row: Row, phase: Phase)
    requires Inv(s) && c in s.calls && StepOf(s, s', c, row, phase)
    ensures Inv(s')
    ensures forall id :: s.RowOf(id).record.Complete? ==> s'.RowOf(id).record == s.RowOf(id).record
  {
    var id := s.calls[c].intent.requestId;
    RowStepKeeps(s.calls[c], s.RowOf(id), row, phase);
    hide RowStep, RowInv;
    forall d | d in s'.calls ensures CallInv(s'.RowOf(s'.calls[d].intent.requestId), s'.calls[d]) {
      if d != c {
        assert s'.calls[d] == s.calls[d];
        assert CallInv(s.RowOf(s.calls[d].intent.requestId), s.calls[d]);
      }
    }
    forall other ensures RowInv(s'.RowOf(other)) {
      assert RowInv(s.RowOf(other));
    }
  }

  lemma NextKeepsInv(s: State, s': State)
    requires Inv(s) && Next(s, s')
    ensures Inv(s')
    ensures forall id :: s.RowOf(id).record.Complete? ==> s'.RowOf(id).record == s.RowOf(id).record
  {
    var c, row, phase :| c in s.calls && StepOf(s, s', c, row, phase);
    StepKeepsInv(s, s', c, row, phase);
  }

  lemma {:induction false} RunInv(run: seq<State>, i: nat)
    requires IsRun(run) && i < |run|
    ensures Inv(run[i])
  {
    hide Next, RowInv, CallInv;
    if i > 0 {
      RunInv(run, i - 1);
      assert Next(run[i - 1], run[i - 1 + 1]);
      NextKeepsInv(run[i - 1], run[i]);
    } else {
      InitInv(run[0]);
    }
  }

  lemma InitInv(s: State)
    requires Init(s)
    ensures Inv(s)
  {
  }

  /** At most one payload build and one external deploy for each request id, in every run. */
  lemma AtMostOnce(run: seq<State>, i: nat, id: RequestId)
    requires IsRun(run) && i < |run|
    ensures run[i].RowOf(id).builds <= 1 && run[i].RowOf(id).deploys <= 1
  {
    RunInv(run, i);
    assert RowInv(run[i].RowOf(id));
  }

  lemma {:induction false} CompleteIsForEver(run: seq<State>, i: nat, j: nat, id: RequestId)
    requires IsRun(run) && i <= j < |run| && run[i].RowOf(id).record.Complete?
    ensures run[j].RowOf(id).record == run[i].RowOf(id).record
    decreases j
  {
    hide Next, Init, Inv;
    if i < j {
      CompleteIsForEver(run, i, j - 1, id);
      RunInv(run, j - 1);
      assert Next(run[j - 1], run[j - 1 + 1]);
      NextKeepsInv(run[j - 1], run[j]);
    }
  }

  /** Every caller that succeeds for a request id gets the same receipt, and it records a deploy
      that took place once, for the provider and executable that caller asked for. */
  lemma SameReceipt(run: seq<State>, i: nat, j: nat, c: Caller, d: Caller)
    requires IsRun(run) && i <= j < |run| && c in run[i].calls && d in run[j].calls
    requires run[i].calls[c].phase.Returned? && run[j].calls[d].phase.Returned?
    requires run[i].calls[c].intent.requestId == run[j].calls[d].intent.requestId
    ensures run[i].calls[c].phase.receipt == run[j].calls[d].phase.receipt
    ensures run[i].calls[c].intent == run[j].calls[d].intent
    ensures run[i].RowOf(run[i].calls[c].intent.requestId).deploys == 1
  {
    RunInv(run, i);
    RunInv(run, j);
    var id := run[i].calls[c].intent.requestId;
    assert CallInv(run[i].RowOf(id), run[i].calls[c]);
    assert CallInv(run[j].RowOf(id), run[j].calls[d]);
    assert RowInv(run[i].RowOf(id));
    CompleteIsForEver(run, i, j, id);
  }

  /** No caller is left that could finish an in-flight request. */
  ghost predicate Abandoned(s: State, id: RequestId) {
    && s.RowOf(id).record.InFlight?
    && forall c | c in s.calls && s.calls[c].intent.requestId == id :: !Active(s.calls[c].phase)
  }

  lemma StepKeepsAbandoned(s: State, s': State, id: RequestId)
    requires Inv(s) && Next(s, s') && Abandoned(s, id)
    ensures Abandoned(s', id) && s'.RowOf(id) == s.RowOf(id)
  {
    var c, row, phase :| c in s.calls && StepOf(s, s', c, row, phase);
    assert CallInv(s.RowOf(s.calls[c].intent.requestId), s.calls[c]) && RowInv(s.RowOf(s.calls[c].intent.requestId));
    RowStepKeeps(s.calls[c], s.RowOf(s.calls[c].intent.requestId), row, phase);
  }

  /** A caller that died holding the intent leaves the request in flight for ever: no later caller
      builds or deploys for it, and none succeeds. */
  lemma {:induction false} AbandonedStaysInFlight(run: seq<State>, i: nat, j: nat, id: RequestId)
    requires IsRun(run) && i <= j < |run| && Abandoned(run[i], id)
    ensures Abandoned(run[j], id) && run[j].RowOf(id) == run[i].RowOf(id)
    ensures forall c | c in run[j].calls && run[j].calls[c].intent.requestId == id :: !run[j].calls[c].phase.Returned?
    decreases j
  {
    hide Next, Init, RowInv;
    RunInv(run, j);
    if i < j {
      AbandonedStaysInFlight(run, i, j - 1, id);
      RunInv(run, j - 1);
      assert Next(run[j - 1], run[j - 1 + 1]);
      StepKeepsAbandoned(run[j - 1], run[j], id);
    }
    forall c | c in run[j].calls && run[j].calls[c].intent.requestId == id
      ensures !run[j].calls[c].phase.Returned?
    {
      assert CallInv(run[j].RowOf(id), run[j].calls[c]);
    }
  }
}
