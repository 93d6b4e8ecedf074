/** NIP-98 request authentication: a freshness window and a durable table of claimed event ids
    whose expired rows are deleted. An event's id commits to its creation time, so the creation
    time is a function of the id; signature, tag and authority checks are one Boolean. */
module ReplayGuard {
  import opened Bytes

  const I64_LIMIT: nat := 0x8000_0000_0000_0000

  type Id = string
  type Table = map<Id, nat>

  datatype Policy = Policy(freshnessSeconds: nat, created: Id -> nat) {
    function Freshness(): nat { if freshnessSeconds >= 1 then freshnessSeconds else 1 }

    /** When a claimed id may be forgotten: a saturating 64-bit sum. */
    function Expiry(id: Id): nat {
      if created(id) + Freshness() < U64_LIMIT then created(id) + Freshness() else U64_LIMIT - 1
    }

    predicate IsFresh(id: Id, now: nat) {
      (if created(id) <= now then now - created(id) else created(id) - now) <= Freshness()
    }
  }

  /** One request: `now` is read for the freshness check, `claimNow` by the replay store when it
      claims the id. `checks` says whether the proof, its tags and its signer are in order. */
  datatype Request = Request(id: Id, checks: bool, now: nat, claimNow: nat)

  predicate Passes(policy: Policy, r: Request) { r.checks && policy.IsFresh(r.id, r.now) }

  /** Times are 64-bit unsigned; the database holds signed ones and refuses larger values. */
  predicate Storable(policy: Policy, r: Request) { policy.Expiry(r.id) < I64_LIMIT && r.claimNow < I64_LIMIT }

  function Unexpired(table: Table, now: nat): Table { map id | id in table && table[id] >= now :: table[id] }

  /** `claim_nip98_replay`. */
  function Claim(table: Table, id: Id, expires: nat, now: nat): (Table, bool) {
    if expires >= I64_LIMIT || now >= I64_LIMIT then (table, false)
    else
      var kept := Unexpired(table, now);
      if id in kept then (kept, false) else (kept[id := expires], true)
  }

  function Authenticate(policy: Policy, table: Table, r: Request): (Table, bool) {
    if Passes(policy, r) then Claim(table, r.id, policy.Expiry(r.id), r.claimNow) else (table, false)
  }

  // Runs. Requests are listed in the order of their claims, which the store serializes.

  function TableAfter(policy: Policy, run: seq<Request>): Table {
    if run == [] then map[]
    else Authenticate(policy, TableAfter(policy, run[..|run| - 1]), run[|run| - 1]).0
  }

  predicate Admitted(policy: Policy, run: seq<Request>, i: nat)
    requires i < |run|
  {
    Authenticate(policy, TableAfter(policy, run[..i]), run[i]).1
  }

  /** The store's clock never goes back from one claim to the next. */
  ghost predicate Monotone(run: seq<Request>) {
    forall i, j | 0 <= i < j < |run| :: run[i].claimNow <= run[j].claimNow
  }

  /** Whoever is admitted passed every check, at a time no further from the creation of the event than
      the freshness allows, before or after it. */
  lemma AdmittedIsChecked(policy: Policy, run: seq<Request>, i: nat)
    requires i < |run| && Admitted(policy, run, i)
    ensures run[i].checks
    ensures policy.created(run[i].id) <= run[i].now + policy.Freshness()
    ensures run[i].now <= policy.created(run[i].id) + policy.Freshness()
  {
  }

  /** One request's effect on the table. */
  lemma AuthenticateStep(policy: Policy, table: Table, r: Request)
    ensures var (table', admitted) := Authenticate(policy, table, r);
      && (forall id | id in table' :: (id in table && table'[id] == table[id])
                                      || (id == r.id && admitted && table'[id] == policy.Expiry(id)))
      && (forall id | id in table && r.claimNow <= table[id] :: id in table')
      && (admitted ==> r.id in table')
  {
  }

  lemma SameAdmissions(policy: Policy, run: seq<Request>, n: nat, i: nat)
    requires i < n <= |run|
    ensures Admitted(policy, run, i) == Admitted(policy, run[..n], i)
  {
    assert run[..n][..i] == run[..i];
  }

  ghost predicate WasAdmitted(policy: Policy, run: seq<Request>, id: Id) {
    exists i: nat :: i < |run| && run[i].id == id && Admitted(policy, run, i)
  }

  lemma StillAdmitted(policy: Policy, run: seq<Request>, n: nat, id: Id)
    requires n <= |run| && WasAdmitted(policy, run[..n], id)
    ensures WasAdmitted(policy, run, id)
  {
    var i: nat :| i < n && run[..n][i].id == id && Admitted(policy, run[..n], i);
    SameAdmissions(policy, run, n, i);
  }

  /** Every row is an admitted id with its expiry. */
  lemma {:induction false} RowsWereAdmitted(policy: Policy, run: seq<Request>)
    ensures forall id | id in TableAfter(policy, run) ::
      TableAfter(policy, run)[id] == policy.Expiry(id) && WasAdmitted(policy, run, id)
  {
    if run != [] {
      var n := |run| - 1;
      RowsWereAdmitted(policy, run[..n]);
      AuthenticateStep(policy, TableAfter(policy, run[..n]), run[n]);
      var table, table' := TableAfter(policy, run[..n]), TableAfter(policy, run);
      var admitted := Admitted(policy, run, n);
      hide Authenticate;
      forall id | id in table' ensures table'[id] == policy.Expiry(id) && WasAdmitted(policy, run, id) {
        if id in table && table'[id] == table[id] {
          StillAdmitted(policy, run, n, id);
        } else {
          assert id == run[n].id && admitted;
        }
      }
    }
  }

  /** An admitted id that no claim so far has outlived still has its row. */
  lemma {:induction false} AdmittedKeepsItsRow(policy: Policy, run: seq<Request>, i: nat)
    requires Monotone(run) && i < |run| && Admitted(policy, run, i)
    requires run[|run| - 1].claimNow <= policy.Expiry(run[i].id)
    ensures run[i].id in TableAfter(policy, run)
  {
    var n := |run| - 1;
    AuthenticateStep(policy, TableAfter(policy, run[..n]), run[n]);
    if i < n {
      SameAdmissions(policy, run, n, i);
      assert run[..n][i] == run[i] && run[..n][n - 1] == run[n - 1];
      hide Authenticate;
      AdmittedKeepsItsRow(policy, run[..n], i);
      RowsWereAdmitted(policy, run[..n]);
    }
  }

  /** Exactly when an id is admitted again: every request whose checks and freshness pass, but
      whose claim is made after the id's expiry. */
  lemma SecondAdmission(policy: Policy, run: seq<Request>, i: nat, j: nat)
    requires Monotone(run) && i < j < |run| && run[i].id == run[j].id && Admitted(policy, run, i)
    ensures Admitted(policy, run, j) <==>
              Passes(policy, run[j]) && Storable(policy, run[j]) && run[j].claimNow > policy.Expiry(run[j].id)
  {
    var before := run[..j];
    SameAdmissions(policy, run, j, i);
    assert before[i] == run[i] && before[j - 1].claimNow <= run[j].claimNow;
    RowsWereAdmitted(policy, before);
    if before[j - 1].claimNow <= policy.Expiry(run[i].id) { AdmittedKeepsItsRow(policy, before, i); }
  }

  /** The first request for an id whose checks pass is admitted whenever its times can be stored. */
  lemma FirstAdmission(policy: Policy, run: seq<Request>, j: nat)
    requires Monotone(run) && j < |run|
    requires forall i: nat | i < j && run[i].id == run[j].id :: !Admitted(policy, run, i)
    ensures Admitted(policy, run, j) <==> Passes(policy, run[j]) && Storable(policy, run[j])
  {
    var before := run[..j];
    RowsWereAdmitted(policy, before);
    forall i: nat | i < j ensures Admitted(policy, run, i) == Admitted(policy, before, i) {
      SameAdmissions(policy, run, j, i);
    }
  }

  /** Replay freedom: if each request's claim is made at the time its freshness was checked, no id
      is admitted twice in any run, although expired rows are deleted. */
  lemma NoReplay(policy: Policy, run: seq<Request>, i: nat, j: nat)
    requires Monotone(run) && i < j < |run| && run[i].id == run[j].id
    requires run[j].claimNow == run[j].now < U64_LIMIT
    requires Admitted(policy, run, i)
    ensures !Admitted(policy, run, j)
  {
    SecondAdmission(policy, run, i, j);
  }

  /** The daemon reads the clock again for the claim. Replay freedom then needs that reading not
      to have passed the expiry: here it has, and one event is admitted twice. */
  lemma LaterClaimReadmits()
    ensures
      var policy := Policy(60, (id: Id) => 1000);
      var run := [Request("event", true, 1000, 1000), Request("event", true, 1060, 1061)];
      Monotone(run) && Admitted(policy, run, 0) && Admitted(policy, run, 1)
  {
    var policy := Policy(60, (id: Id) => 1000);
    var run := [Request("event", true, 1000, 1000), Request("event", true, 1060, 1061)];
    assert run[..0] == [];
    assert Admitted(policy, run, 0);
    SecondAdmission(policy, run, 0, 1);
  }

  // The statement-by-statement store and policy.

  class ReplayStore {
    var rows: Table

    constructor ()
      ensures rows == map[]
    {
      rows := map[];
    }

    method ClaimReplay(id: Id, expires: nat, now: nat) returns (claimed: bool)
      modifies this
      ensures (rows, claimed) == Claim(old(rows), id, expires, now)
    {
      if expires >= I64_LIMIT || now >= I64_LIMIT {
        return false;
      }
      rows := Unexpired(rows, now);
      claimed := id !in rows;
      if claimed {
        rows := rows[id := expires];
      }
    }

    method AuthenticateRequest(policy: Policy, r: Request) returns (admitted: bool)
      modifies this
      ensures (rows, admitted) == Authenticate(policy, old(rows), r)
      ensures admitted ==> r.checks && r.now - policy.Freshness() <= policy.created(r.id) <= r.now + policy.Freshness()
    {
      if !r.checks || !policy.IsFresh(r.id, r.now) {
        return false;
      }
      admitted := ClaimReplay(r.id, policy.Expiry(r.id), r.claimNow);
    }
  }
}
