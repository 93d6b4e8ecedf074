/** Identity custody for one agent: concurrent provisioners agree on one secret through an atomic
    hard link. Calls are processes whose file-system steps interleave and which may crash between
    any two of them; nothing purges the secret. */
module Custody {
  import opened Basics

  const SECRET_HEX: nat := 64

  /** A secret in the form in which it is written to its file. */
  type Secret = s: seq<char> | |s| == SECRET_HEX witness seq(SECRET_HEX, _ => '0')

  /** Each call has its own temporary name, so its file is named by the call. */
  type Call = nat

  datatype Phase =
    | Idle(loads: bool)         // about to read the secret; a load gives up if there is none
    | Generated(key: Secret)    // no secret was found, a key was made
    | Writing(key: Secret)      // the temporary file exists and is being written
    | Synced(key: Secret)       // written and synced, about to be linked
    | Linked                    // a secret is published, the temporary name is still there
    | Unlinked                  // about to read the published secret
    | Returned(result: Secret)
    | Failed
    | Crashed

  /** Files by the call that created them; `published` is the file behind the secret's own name. */
  datatype State = State(files: map<Call, seq<char>>, published: Option<Call>, calls: map<Call, Phase>)

  ghost predicate Init(s: State) {
    && (forall c | c in s.calls :: s.calls[c].Idle? && c !in s.files)
    && (s.published.Some? ==> s.published.value in s.files && |s.files[s.published.value]| == SECRET_HEX)
  }

  // Steps of one call. Each is one system call or touches no file.

  ghost predicate Moves(s: State, s': State, c: Call, phase: Phase) {
    s'.calls == s.calls[c := phase]
  }

  /** Reading the published name: absent, a secret, or something that is not one. */
  ghost predicate ReadsSecret(s: State, s': State, c: Call, ifAbsent: Phase) {
    && s'.files == s.files && s'.published == s.published
    && if s.published.None? then Moves(s, s', c, ifAbsent)
       else if s.published.value in s.files && |s.files[s.published.value]| == SECRET_HEX
       then Moves(s, s', c, Returned(s.files[s.published.value]))
       else Moves(s, s', c, Failed)
  }

  ghost predicate Generates(s: State, s': State, c: Call)
    requires c in s.calls
  {
    && s.calls[c] == Idle(false)
    && exists key: Secret :: ReadsSecret(s, s', c, Generated(key))
  }

  ghost predicate Loads(s: State, s': State, c: Call)
    requires c in s.calls
  {
    s.calls[c] == Idle(true) && ReadsSecret(s, s', c, Failed)
  }

  ghost predicate Creates(s: State, s': State, c: Call)
    requires c in s.calls
  {
    && s.calls[c].Generated?
    && s'.files == s.files[c := []] && s'.published == s.published
    && Moves(s, s', c, Writing(s.calls[c].key))
  }

  /** A write may put down any number of the remaining characters. */
  ghost predicate Writes(s: State, s': State, c: Call, written: nat)
    requires c in s.calls
  {
    && s.calls[c].Writing? && c in s.files
    && |s.files[c]| < written <= SECRET_HEX
    && s'.files == s.files[c := s.calls[c].key[..written]] && s'.published == s.published
    && s'.calls == s.calls
  }

  ghost predicate Syncs(s: State, s': State, c: Call)
    requires c in s.calls
  {
    && s.calls[c].Writing? && c in s.files && |s.files[c]| == SECRET_HEX
    && s'.files == s.files && s'.published == s.published
    && Moves(s, s', c, Synced(s.calls[c].key))
  }

  /** The hard link takes effect only if the name is free; finding it taken is as good. */
  ghost predicate Links(s: State, s': State, c: Call)
    requires c in s.calls
  {
    && s.calls[c].Synced?
    && s'.files == s.files
    && s'.published == (if s.published.None? then Some(c) else s.published)
    && Moves(s, s', c, Linked)
  }

  ghost predicate Unlinks(s: State, s': State, c: Call)
    requires c in s.calls
  {
    && s.calls[c].Linked?
    && s'.files == s.files && s'.published == s.published
    && Moves(s, s', c, Unlinked)
  }

  ghost predicate ReadsBack(s: State, s': State, c: Call)
    requires c in s.calls
  {
    s.calls[c].Unlinked? && ReadsSecret(s, s', c, Failed)
  }

  /** A crash, or any system call failing, ends the call where it is. */
  ghost predicate Stops(s: State, s': State, c: Call)
    requires c in s.calls
  {
    && !s.calls[c].Returned?
    && s'.files == s.files && s'.published == s.published
    && (Moves(s, s', c, Crashed) || Moves(s, s', c, Failed))
  }

  ghost predicate Next(s: State, s': State) {
    exists c | c in s.calls :: StepOf(s, s', c)
  }

  ghost predicate StepOf(s: State, s': State, c: Call)
    requires c in s.calls
  {
    || Generates(s, s', c) || Loads(s, s', c) || Creates(s, s', c) || (exists n: nat :: Writes(s, s', c, n))
    || Syncs(s, s', c) || Links(s, s', c) || Unlinks(s, s', c) || ReadsBack(s, s', c) || Stops(s, s', c)
  }

  ghost predicate IsRun(run: seq<State>) {
    run != [] && Init(run[0]) && forall i | 0 <= i < |run| - 1 :: Next(run[i], run[i + 1])
  }

  // The invariant.

  ghost predicate CallInv(s: State, c: Call)
    requires c in s.calls
  {
    match s.calls[c]
    case Idle(_) => c !in s.files
    case Generated(_) => c !in s.files
    case Writing(key) => c in s.files && s.files[c] <= key && s.published != Some(c)
    case Synced(key) => c in s.files && s.files[c] == key && s.published != Some(c)
    case Linked => s.published.Some?
    case Unlinked => s.published.Some?
    case Returned(result) => s.published.Some? && s.published.value in s.files && result == s.files[s.published.value]
    case Failed => true
    case Crashed => true
  }

  ghost predicate Inv(s: State) {
    && (s.published.Some? ==> s.published.value in s.files && |s.files[s.published.value]| == SECRET_HEX)
    && forall c | c in s.calls :: CallInv(s, c)
  }

  /** Once published, the secret stays as it is. */
  ghost predicate Keeps(s: State, s': State) {
    s.published.Some? && s.published.value in s.files ==>
      && s'.published == s.published
      && s.published.value in s'.files
      && s'.files[s.published.value] == s.files[s.published.value]
  }

  lemma WriteKeepsInv(s: State, s': State, c: Call, n: nat)
    requires Inv(s) && c in s.calls && Writes(s, s', c, n)
    ensures Inv(s') && Keeps(s, s')
  {
    forall d | d in s'.calls ensures CallInv(s', d) {
      assert CallInv(s, d);
    }
  }

  lemma StepKeepsInv(s: State, s': State, c: Call)
    requires Inv(s) && c in s.calls && StepOf(s, s', c)
    ensures Inv(s') && Keeps(s, s')
  {
    assert CallInv(s, c);
    if n: nat :| Writes(s, s', c, n) {
      WriteKeepsInv(s, s', c, n);
    } else {
      forall d | d in s'.calls ensures CallInv(s', d) {
        assert d in s.calls && CallInv(s, d);
      }
    }
  }

  lemma NextKeepsInv(s: State, s': State)
    requires Inv(s) && Next(s, s')
    ensures Inv(s') && Keeps(s, s')
  {
    var c :| c in s.calls && StepOf(s, s', c);
    StepKeepsInv(s, s', c);
  }

  lemma {:induction false} RunInv(run: seq<State>, i: nat)
    requires IsRun(run) && i < |run|
    ensures Inv(run[i])
  {
    if i > 0 {
      RunInv(run, i - 1);
      assert Next(run[i - 1], run[i - 1 + 1]);
      NextKeepsInv(run[i - 1], run[i]);
    }
  }

  /** In every interleaving, a published secret is complete and never changes afterwards. */
  lemma {:induction false} PublishedIsStable(run: seq<State>, i: nat, j: nat)
    requires IsRun(run) && i <= j < |run| && run[i].published.Some?
    ensures run[i].published.value in run[i].files && |run[i].files[run[i].published.value]| == SECRET_HEX
    ensures run[j].published == run[i].published
    ensures run[i].published.value in run[j].files
    ensures run[j].files[run[i].published.value] == run[i].files[run[i].published.value]
    decreases j
  {
    hide Next, Init, CallInv;
    RunInv(run, i);
    if i < j {
      PublishedIsStable(run, i, j - 1);
      RunInv(run, j - 1);
      assert Next(run[j - 1], run[j - 1 + 1]);
      NextKeepsInv(run[j - 1], run[j]);
    }
  }

  ghost predicate ReturnedAt(s: State, c: Call, key: Secret) { c in s.calls && s.calls[c] == Returned(key) }

  /** All successful provision and load calls, at any two points of a run, return the same key. */
  lemma Agreement(run: seq<State>, i: nat, j: nat, c: Call, d: Call, k: Secret, l: Secret)
    requires IsRun(run) && i <= j < |run|
    requires ReturnedAt(run[i], c, k) && ReturnedAt(run[j], d, l)
    ensures k == l
  {
    RunInv(run, i);
    RunInv(run, j);
    assert CallInv(run[i], c) && CallInv(run[j], d);
    PublishedIsStable(run, i, j);
  }
}
