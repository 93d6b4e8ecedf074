/** Kinds and states of durable operations. */
module Operation {
  datatype Kind = CreateAgent | UpdateAgent | EnableAgent | DisableAgent | DeleteAgent | PurgeAgent

  datatype Status = Pending | Running | Succeeded | Failed | Cancelled {
    predicate IsTerminal() { Succeeded? || Failed? || Cancelled? }

    predicate CanTransitionTo(next: Status) {
      || (Pending? && (next.Running? || next.Cancelled?))
      || (Running? && (next.Succeeded? || next.Failed? || next.Cancelled?))
    }

    /** How far along an operation is; every transition goes further. */
    function Progress(): nat { if Pending? then 0 else if Running? then 1 else 2 }
  }

  /** A history in which each status was reached from the one before or is the same. */
  ghost predicate IsHistory(h: seq<Status>) {
    forall i | 0 <= i < |h| - 1 :: h[i] == h[i + 1] || h[i].CanTransitionTo(h[i + 1])
  }

  /** Progress never decreases, and a terminal status is final. */
  lemma {:induction false} HistoriesAreMonotone(h: seq<Status>, i: nat, j: nat)
    requires IsHistory(h) && i <= j < |h|
    ensures h[i].Progress() <= h[j].Progress()
    ensures h[i].IsTerminal() ==> h[j] == h[i]
    decreases j
  {
    if i < j {
      HistoriesAreMonotone(h, i, j - 1);
      assert h[j - 1] == h[j - 1 + 1] || h[j - 1].CanTransitionTo(h[j - 1 + 1]);
    }
  }
}
