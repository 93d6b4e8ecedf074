/** Reconciling desired agent state with processes: the reconciler over a faithful supervisor, in a
    world whose processes exit whenever they like and whose daemon restarts between calls. */
module Reconcile {
  import opened Operation
  import opened Basics

  type AgentId = nat
  type Pid = nat       // a process id together with its start time: never used twice
  type Identity = string

  datatype Desired = Enabled | Disabled | Deleted

  datatype Launch = Launch(launchId: string, agent: AgentId, group: string, identity: Identity)

  datatype Observed = Starting | Healthy | Unhealthy | Stopping | Exited | Lost {
    predicate IsTerminal() { Exited? || Lost? }

    predicate CanTransitionTo(next: Observed) {
      || this == next
      || (Starting? && !next.Starting?)
      || (Healthy? && (next.Unhealthy? || next.Stopping? || next.IsTerminal()))
      || (Unhealthy? && (next.Healthy? || next.Stopping? || next.IsTerminal()))
      || (Stopping? && next.IsTerminal())
    }

    /** Where a state stands in a process's life. */
    function Stage(): nat { if Starting? then 0 else if Healthy? || Unhealthy? then 1 else if Stopping? then 2 else 3 }
  }

  /** The relation is exactly: never to an earlier stage, never between the terminal states, and
      only Healthy and Unhealthy go back and forth. */
  lemma TransitionsGoForward(a: Observed, b: Observed)
    ensures a.CanTransitionTo(b) <==> a == b || a.Stage() < b.Stage() || (a.Stage() == 1 && b.Stage() == 1)
    ensures a.CanTransitionTo(b) && a.IsTerminal() ==> b == a
  {
  }

  datatype Receipt = Receipt(launchId: string, agent: AgentId, group: string, identity: Identity, pid: Pid,
                             state: Observed, exitCode: Option<int>)

  /** Records an observation in a receipt, if the lifecycle allows it. */
  function Observe(r: Receipt, state: Observed, exitCode: Option<int>): Option<Receipt> {
    if !r.state.CanTransitionTo(state) || (exitCode.Some? && !state.IsTerminal()) then None
    else Some(r.(state := state, exitCode := exitCode))
  }

  predicate CanAdopt(desired: Launch, r: Receipt) {
    && r.launchId == desired.launchId && r.agent == desired.agent && r.group == desired.group
    && r.identity == desired.identity && r.pid > 0 && !r.state.IsTerminal()
  }

  datatype StartFailure = Preflight | SecretResolution | InvalidSpec | Other

  datatype Outcome = Deferred | Unchanged | Adopted | Started | Stopped | FailedPreflight | NoPresence | Error | Crashed

  /** What the world does during one call: which processes have exited by the time each supervisor
      call looks, whether a starting process became healthy, which calls fail, and after how many
      effects (receipt writes and deletions, stops, starts) the daemon dies. */
  datatype Weather = Weather(exits: set<Pid>, ready: bool, code: Option<int>, inspectFails: bool,
                             lateExits: set<Pid>, stopFails: bool, diesAnyway: bool, startFails: Option<StartFailure>,
                             budget: nat)

  /** No call has more effects than this. */
  const COMPLETE: nat := 5

  /** No process has exited, inspection works, and the daemon survives the call. */
  predicate Calm(w: Weather) { w.exits == {} && !w.inspectFails && w.budget >= COMPLETE }

  datatype Process = Process(agent: AgentId, identity: Identity)

  ghost predicate AtMostOne(live: map<Pid, Process>) {
    forall p, q | p in live && q in live && live[p].agent == live[q].agent :: p == q
  }

  // The invariant and what keeps it, on values.

  /** Receipts name their own processes, and a receipt whose process lives describes it. */
  ghost predicate Fits(live: map<Pid, Process>, receipts: map<AgentId, Receipt>, next: Pid) {
    && 0 < next
    && (forall p | p in live :: p < next)
    && (forall a | a in receipts :: receipts[a].agent == a && 0 < receipts[a].pid < next)
    && (forall a, b | a in receipts && b in receipts && receipts[a].pid == receipts[b].pid :: a == b)
    && (forall a | a in receipts && receipts[a].pid in live ::
          live[receipts[a].pid] == Process(a, receipts[a].identity) && !receipts[a].state.IsTerminal())
  }

  /** A process that its agent's receipt does not name. */
  predicate IsOrphan(p: Process, pid: Pid, receipts: map<AgentId, Receipt>) {
    p.agent !in receipts || receipts[p.agent].pid != pid
  }

  ghost predicate NoOrphans(live: map<Pid, Process>, receipts: map<AgentId, Receipt>) {
    forall p | p in live :: !IsOrphan(live[p], p, receipts)
  }

  lemma NoOrphansIsAtMostOne(live: map<Pid, Process>, receipts: map<AgentId, Receipt>)
    requires NoOrphans(live, receipts)
    ensures AtMostOne(live)
  {
    forall p, q | p in live && q in live && live[p].agent == live[q].agent ensures p == q {
      assert !IsOrphan(live[p], p, receipts) && !IsOrphan(live[q], q, receipts);
    }
  }

  ghost predicate HasNone(live: map<Pid, Process>, agent: AgentId) { forall p | p in live :: live[p].agent != agent }

  /** The process of the agent's receipt, if it has one, is dead. */
  predicate Dead(live: map<Pid, Process>, receipts: map<AgentId, Receipt>, agent: AgentId) {
    agent in receipts ==> receipts[agent].pid !in live
  }

  lemma DeadWithoutOrphans(live: map<Pid, Process>, receipts: map<AgentId, Receipt>, agent: AgentId)
    requires NoOrphans(live, receipts) && Dead(live, receipts, agent)
    ensures HasNone(live, agent)
  {
    forall p | p in live ensures live[p].agent != agent { assert !IsOrphan(live[p], p, receipts); }
  }

  /** From one state to a later one, the processes below `next` are no others than before, and the
      same ones of them are orphans. */
  ghost predicate Evolves(live: map<Pid, Process>, receipts: map<AgentId, Receipt>,
                          live': map<Pid, Process>, receipts': map<AgentId, Receipt>, next: Pid) {
    forall p | p in live' && p < next ::
      p in live && live'[p] == live[p] && (IsOrphan(live[p], p, receipts) <==> IsOrphan(live[p], p, receipts'))
  }

  lemma EvolvesTransitive(live: map<Pid, Process>, receipts: map<AgentId, Receipt>,
                          mid: map<Pid, Process>, between: map<AgentId, Receipt>,
                          live': map<Pid, Process>, receipts': map<AgentId, Receipt>, next: Pid)
    requires Evolves(live, receipts, mid, between, next) && Evolves(mid, between, live', receipts', next)
    ensures Evolves(live, receipts, live', receipts', next)
  {
    forall p | p in live' && p < next
      ensures p in live && live'[p] == live[p] && (IsOrphan(live[p], p, receipts) <==> IsOrphan(live[p], p, receipts'))
    {
      assert p in mid;
    }
  }

  /** Everything but the agent's recorded process and the processes in `exited` lives on. */
  ghost predicate Spared(live: map<Pid, Process>, recorded: Option<Pid>, live': map<Pid, Process>, exited: set<Pid>) {
    forall p | p in live && p !in exited && recorded != Some(p) :: p in live' && live'[p] == live[p]
  }

  function PidOf(receipts: map<AgentId, Receipt>, agent: AgentId): Option<Pid> {
    if agent in receipts then Some(receipts[agent].pid) else None
  }

  lemma ExitsFit(live: map<Pid, Process>, receipts: map<AgentId, Receipt>, next: Pid, exits: set<Pid>)
    requires Fits(live, receipts, next)
    ensures Fits(live - exits, receipts, next) && Evolves(live, receipts, live - exits, receipts, next)
    ensures forall recorded :: Spared(live, recorded, live - exits, exits)
  {
  }

  /** Same receipt but for the observation. */
  predicate SameButState(r: Receipt, r': Receipt) { r' == r.(state := r'.state, exitCode := r'.exitCode) }

  lemma ObservingFits(live: map<Pid, Process>, receipts: map<AgentId, Receipt>, next: Pid, agent: AgentId, r: Receipt)
    requires Fits(live, receipts, next) && agent in receipts && SameButState(receipts[agent], r)
    requires r.state.IsTerminal() ==> r.pid !in live
    ensures Fits(live, receipts[agent := r], next) && Evolves(live, receipts, live, receipts[agent := r], next)
  {
  }

  lemma ForgettingFits(live: map<Pid, Process>, receipts: map<AgentId, Receipt>, next: Pid, agent: AgentId)
    requires Fits(live, receipts, next) && Dead(live, receipts, agent)
    ensures Fits(live, receipts - {agent}, next) && Evolves(live, receipts, live, receipts - {agent}, next)
  {
  }

  function FirstReceipt(desired: Launch, pid: Pid): Receipt {
    Receipt(desired.launchId, desired.agent, desired.group, desired.identity, pid, Starting, None)
  }

  function WithNew(live: map<Pid, Process>, desired: Launch, pid: Pid): map<Pid, Process> {
    live[pid := Process(desired.agent, desired.identity)]
  }

  /** A start adds an orphan, which the receipt then claims. */
  lemma StartingFits(live: map<Pid, Process>, receipts: map<AgentId, Receipt>, next: Pid, desired: Launch)
    requires Fits(live, receipts, next) && Dead(live, receipts, desired.agent)
    ensures Fits(WithNew(live, desired, next), receipts, next + 1)
    ensures Evolves(live, receipts, WithNew(live, desired, next), receipts, next)
    ensures IsOrphan(Process(desired.agent, desired.identity), next, receipts)
  {
  }

  lemma RecordingFits(live: map<Pid, Process>, receipts: map<AgentId, Receipt>, next: Pid, desired: Launch)
    requires Fits(live, receipts, next) && Dead(live, receipts, desired.agent)
    ensures var receipts' := receipts[desired.agent := FirstReceipt(desired, next)];
      && Fits(WithNew(live, desired, next), receipts', next + 1)
      && Evolves(live, receipts, WithNew(live, desired, next), receipts', next)
      && !IsOrphan(Process(desired.agent, desired.identity), next, receipts')
  {
  }

  // Where a call that starts a process can be cut off.

  predicate Matches(desired: Launch, r: Receipt) {
    && r.launchId == desired.launchId && r.agent == desired.agent
    && r.group == desired.group && r.identity == desired.identity
  }

  /** How many effects a call has before it starts a process, if it gets there. */
  function EffectsBeforeStart(live: map<Pid, Process>, receipts: map<AgentId, Receipt>, desired: Launch,
                              w: Weather): Option<nat> {
    if desired.agent !in receipts then Some(0)
    else if w.inspectFails then None
    else if receipts[desired.agent].pid !in live || receipts[desired.agent].pid in w.exits then Some(1)
    else if Matches(desired, receipts[desired.agent]) || w.stopFails then None
    else Some(3)
  }

  /** The daemon dies between a successful start and the write of its receipt. */
  predicate DiesInWindow(live: map<Pid, Process>, receipts: map<AgentId, Receipt>, desired: Launch, w: Weather) {
    var n := EffectsBeforeStart(live, receipts, desired, w);
    n.Some? && w.startFails.None? && w.budget == n.value + 1
  }

  // How a call ends, unless the daemon dies in it.

  /** The process of the agent's receipt is there when the call looks. */
  predicate Lives(live: map<Pid, Process>, receipts: map<AgentId, Receipt>, agent: AgentId, w: Weather) {
    agent in receipts && receipts[agent].pid in live && receipts[agent].pid !in w.exits
  }

  /** Stopping ends in Stopped or Unchanged according to whether there was something to stop, and in
      an error only if the inspection failed, or the stop that was needed. */
  predicate StopEnds(live: map<Pid, Process>, receipts: map<AgentId, Receipt>, agent: AgentId, w: Weather,
                     outcome: Outcome) {
    var lives := Lives(live, receipts, agent, w);
    && (outcome == Stopped <==> lives && !w.inspectFails && !w.stopFails)
    && (outcome == Unchanged <==> agent !in receipts || (!lives && !w.inspectFails))
    && (outcome == Error <==> agent in receipts && (w.inspectFails || (lives && w.stopFails)))
  }

  /** Starting adopts exactly the process that lives and matches; otherwise, unless the inspection or
      the stop that was needed failed, it starts a process, and the outcome tells how the start went. */
  predicate StartEnds(live: map<Pid, Process>, receipts: map<AgentId, Receipt>, desired: Launch, w: Weather,
                      outcome: Outcome) {
    var lives := Lives(live, receipts, desired.agent, w);
    var matches := desired.agent in receipts && Matches(desired, receipts[desired.agent]);
    var fails := desired.agent in receipts && (w.inspectFails || (lives && !matches && w.stopFails));
    && (outcome == Adopted <==> !w.inspectFails && lives && matches)
    && (fails ==> outcome == Error)
    && (!fails && outcome != Adopted ==> outcome == StartOutcome(w.startFails))
  }

  function StartOutcome(failure: Option<StartFailure>): Outcome {
    match failure
    case None => Started
    case Some(Preflight) => FailedPreflight
    case Some(SecretResolution) => NoPresence
    case Some(InvalidSpec) => NoPresence
    case Some(Other) => Error
  }

  lemma StopEndsAs(live: map<Pid, Process>, receipts: map<AgentId, Receipt>, agent: AgentId, w: Weather, r: Receipt)
    requires agent in receipts && SameButState(receipts[agent], r) && !w.inspectFails
    requires r.state.IsTerminal() <==> r.pid !in live - w.exits
    ensures StopEnds(live, receipts, agent, w,
                     if r.state.IsTerminal() then Unchanged else if w.stopFails then Error else Stopped)
  {
  }

  lemma StartEndsAs(live: map<Pid, Process>, receipts: map<AgentId, Receipt>, desired: Launch, w: Weather, r: Receipt)
    requires desired.agent in receipts && SameButState(receipts[desired.agent], r) && r.pid > 0 && !w.inspectFails
    requires r.state.IsTerminal() <==> r.pid !in live - w.exits
    ensures StartEnds(live, receipts, desired, w,
                      if CanAdopt(desired, r) then Adopted
                      else if !r.state.IsTerminal() && w.stopFails then Error
                      else StartOutcome(w.startFails))
  {
  }

  lemma InspectionFails(live: map<Pid, Process>, receipts: map<AgentId, Receipt>, desired: Launch, w: Weather)
    requires desired.agent in receipts && w.inspectFails
    ensures StartEnds(live, receipts, desired, w, Error) && StopEnds(live, receipts, desired.agent, w, Error)
  {
  }

  ghost predicate ReceiptsKept(r: map<AgentId, Receipt>, r': map<AgentId, Receipt>, agent: AgentId) {
    forall a | a != agent :: (a in r <==> a in r') && (a in r ==> r'[a] == r[a])
  }

  lemma ReceiptsKeptBy(r: map<AgentId, Receipt>, r': map<AgentId, Receipt>, agent: AgentId, x: Receipt)
    requires ReceiptsKept(r, r', agent)
    ensures ReceiptsKept(r, r'[agent := x], agent) && ReceiptsKept(r, r' - {agent}, agent)
  {
  }

  /** Orphans after a call: those of before that still live, and the new process if it died in the window. */
  ghost predicate OrphansAre(live: map<Pid, Process>, receipts: map<AgentId, Receipt>, next: Pid,
                             live': map<Pid, Process>, receipts': map<AgentId, Receipt>, window: bool) {
    && Evolves(live, receipts, live', receipts', next)
    && (forall p | p in live' && p >= next :: p == next && (IsOrphan(live'[p], p, receipts') <==> window))
    && (window ==> next in live')
  }

  /** Orphans come from dying in the window and from nowhere else. */
  lemma OrphansOnlyFromTheWindow(live: map<Pid, Process>, receipts: map<AgentId, Receipt>, next: Pid,
                                 live': map<Pid, Process>, receipts': map<AgentId, Receipt>, window: bool)
    requires NoOrphans(live, receipts) && OrphansAre(live, receipts, next, live', receipts', window)
    ensures NoOrphans(live', receipts') <==> !window
  {
    if !window {
      forall p | p in live' ensures !IsOrphan(live'[p], p, receipts') {
        if p < next { assert !IsOrphan(live[p], p, receipts); }
      }
    }
  }

  /** What the parts of a call for one agent do to processes and receipts. */
  ghost predicate Goes(live: map<Pid, Process>, receipts: map<AgentId, Receipt>,
                       live': map<Pid, Process>, receipts': map<AgentId, Receipt>,
                       next: Pid, agent: AgentId, exits: set<Pid>) {
    && Fits(live', receipts', next) && Evolves(live, receipts, live', receipts', next)
    && Spared(live, PidOf(receipts, agent), live', exits) && ReceiptsKept(receipts, receipts', agent)
  }

  lemma GoesOn(live: map<Pid, Process>, receipts: map<AgentId, Receipt>, mid: map<Pid, Process>,
               between: map<AgentId, Receipt>, live': map<Pid, Process>, receipts': map<AgentId, Receipt>,
               next: Pid, agent: AgentId, exits: set<Pid>)
    requires Goes(live, receipts, mid, between, next, agent, exits)
    requires Goes(mid, between, live', receipts', next, agent, exits)
    requires PidOf(between, agent) == PidOf(receipts, agent)
    ensures Goes(live, receipts, live', receipts', next, agent, exits)
  {
    EvolvesTransitive(live, receipts, mid, between, live', receipts', next);
    hide Fits, Evolves;
  }

  lemma GoesNowhere(live: map<Pid, Process>, receipts: map<AgentId, Receipt>, next: Pid, agent: AgentId,
                    exits: set<Pid>)
    requires Fits(live, receipts, next)
    ensures Goes(live, receipts, live, receipts, next, agent, exits)
  {
    Unmoved(live, receipts, next, PidOf(receipts, agent), exits);
  }

  lemma GoesFits(live: map<Pid, Process>, receipts: map<AgentId, Receipt>, live': map<Pid, Process>,
                 receipts': map<AgentId, Receipt>, next: Pid, agent: AgentId, exits: set<Pid>)
    requires Goes(live, receipts, live', receipts', next, agent, exits)
    ensures Fits(live', receipts', next)
  {
  }

  lemma GoesBelow(live: map<Pid, Process>, receipts: map<AgentId, Receipt>, live': map<Pid, Process>,
                  receipts': map<AgentId, Receipt>, next: Pid, agent: AgentId, exits: set<Pid>)
    requires Goes(live, receipts, live', receipts', next, agent, exits)
    ensures next !in live'
  {
  }

  lemma GoingOrphansNobody(live: map<Pid, Process>, receipts: map<AgentId, Receipt>, live': map<Pid, Process>,
                           receipts': map<AgentId, Receipt>, next: Pid, agent: AgentId, exits: set<Pid>)
    requires Goes(live, receipts, live', receipts', next, agent, exits)
    ensures OrphansAre(live, receipts, next, live', receipts', false) && Fits(live', receipts', next)
    ensures Spared(live, PidOf(receipts, agent), live', exits) && ReceiptsKept(receipts, receipts', agent)
  {
    NoneNew(live, receipts, live', receipts', next);
  }

  lemma SparedMore(live: map<Pid, Process>, live': map<Pid, Process>, recorded: Option<Pid>, e: set<Pid>, f: set<Pid>)
    requires Spared(live, recorded, live', e)
    ensures Spared(live, recorded, live', e + f)
  {
  }

  lemma Unmoved(live: map<Pid, Process>, receipts: map<AgentId, Receipt>, next: Pid, recorded: Option<Pid>,
                exits: set<Pid>)
    requires Fits(live, receipts, next)
    ensures Evolves(live, receipts, live, receipts, next) && OrphansAre(live, receipts, next, live, receipts, false)
    ensures Spared(live, recorded, live, exits)
  {
  }

  lemma NoneNew(live: map<Pid, Process>, receipts: map<AgentId, Receipt>, live': map<Pid, Process>,
                receipts': map<AgentId, Receipt>, next: Pid)
    requires Evolves(live, receipts, live', receipts', next) && Fits(live', receipts', next)
    ensures OrphansAre(live, receipts, next, live', receipts', false)
  {
  }

  lemma OrphansAfter(live: map<Pid, Process>, receipts: map<AgentId, Receipt>, mid: map<Pid, Process>,
                     between: map<AgentId, Receipt>, next: Pid, live': map<Pid, Process>,
                     receipts': map<AgentId, Receipt>, window: bool)
    requires Evolves(live, receipts, mid, between, next) && OrphansAre(mid, between, next, live', receipts', window)
    ensures OrphansAre(live, receipts, next, live', receipts', window)
  {
    EvolvesTransitive(live, receipts, mid, between, live', receipts', next);
  }

  /** What a start does before and after its receipt is written. */
  lemma StartFacts(live: map<Pid, Process>, receipts: map<AgentId, Receipt>, next: Pid, desired: Launch)
    requires Fits(live, receipts, next) && Dead(live, receipts, desired.agent)
    ensures var live' := WithNew(live, desired, next);
      var receipts' := receipts[desired.agent := FirstReceipt(desired, next)];
      && next > 0 && next !in live
      && OrphansAre(live, receipts, next, live, receipts, false)
      && Spared(live, PidOf(receipts, desired.agent), live, {})
      && Fits(live', receipts, next + 1) && OrphansAre(live, receipts, next, live', receipts, true)
      && Fits(live', receipts', next + 1) && OrphansAre(live, receipts, next, live', receipts', false)
      && Spared(live, PidOf(receipts, desired.agent), live', {})
      && ReceiptsKept(receipts, receipts, desired.agent) && ReceiptsKept(receipts, receipts', desired.agent)
  {
    StartingFits(live, receipts, next, desired);
    RecordingFits(live, receipts, next, desired);
    Unmoved(live, receipts, next, PidOf(receipts, desired.agent), {});
    assert next !in live;
    ReceiptsKeptBy(receipts, receipts, desired.agent, FirstReceipt(desired, next));
  }

  lemma ExitsOrphanNobody(live: map<Pid, Process>, receipts: map<AgentId, Receipt>, exits: set<Pid>)
    requires NoOrphans(live, receipts)
    ensures NoOrphans(live - exits, receipts)
  {
  }

  lemma ExitsGo(live: map<Pid, Process>, receipts: map<AgentId, Receipt>, next: Pid, agent: AgentId, exits: set<Pid>,
                more: set<Pid>)
    requires Fits(live, receipts, next)
    ensures Goes(live, receipts, live - exits, receipts, next, agent, exits + more)
  {
    ExitsFit(live, receipts, next, exits);
    SparedMore(live, live - exits, PidOf(receipts, agent), exits, more);
  }

  lemma EndGoes(live: map<Pid, Process>, receipts: map<AgentId, Receipt>, next: Pid, agent: AgentId, exits: set<Pid>,
                more: set<Pid>)
    requires Fits(live, receipts, next) && agent in receipts
    ensures Goes(live, receipts, live - exits - {receipts[agent].pid}, receipts, next, agent, exits + more)
  {
    var all := exits + {receipts[agent].pid};
    ExitsFit(live, receipts, next, all);
    assert live - exits - {receipts[agent].pid} == live - all;
    assert Spared(live, PidOf(receipts, agent), live - all, exits);
  }

  lemma WholeStart(live: map<Pid, Process>, receipts: map<AgentId, Receipt>, mid: map<Pid, Process>,
                   between: map<AgentId, Receipt>, next: Pid, live': map<Pid, Process>,
                   receipts': map<AgentId, Receipt>, agent: AgentId, exits: set<Pid>, window: bool)
    requires Goes(live, receipts, mid, between, next, agent, exits) && PidOf(between, agent) == PidOf(receipts, agent)
    requires OrphansAre(mid, between, next, live', receipts', window)
    requires Spared(mid, PidOf(between, agent), live', {}) && ReceiptsKept(between, receipts', agent)
    ensures OrphansAre(live, receipts, next, live', receipts', window)
    ensures Spared(live, PidOf(receipts, agent), live', exits) && ReceiptsKept(receipts, receipts', agent)
  {
    OrphansAfter(live, receipts, mid, between, next, live', receipts', window);
    hide OrphansAre, Evolves, Fits;
  }

  datatype Call =
    | Apply(agent: AgentId, desired: Desired, launch: Option<Launch>, weather: Weather)
    | Exits(pids: set<Pid>)
    | Restart

  /** Whether a call dies between starting a process and recording it. */
  predicate Orphans(live: map<Pid, Process>, receipts: map<AgentId, Receipt>, agent: AgentId, desired: Desired,
                    launch: Option<Launch>, w: Weather) {
    && desired.Enabled? && launch.Some? && launch.value.agent == agent
    && DiesInWindow(live, receipts, launch.value, w)
  }

  /** Processes and receipts at one moment of a run. */
  datatype Snapshot = Snapshot(live: map<Pid, Process>, receipts: map<AgentId, Receipt>, next: Pid)

  /** At this moment the call would die between starting a process and recording it. */
  predicate InWindow(s: Snapshot, call: Call) {
    call.Apply? && Orphans(s.live, s.receipts, call.agent, call.desired, call.launch, call.weather)
  }

  /** What a call, exits or a restart make of one moment. */
  ghost predicate Leads(s: Snapshot, call: Call, s': Snapshot) {
    match call
    case Apply(agent, _, _, w) =>
      && OrphansAre(s.live, s.receipts, s.next, s'.live, s'.receipts, InWindow(s, call))
      && Spared(s.live, PidOf(s.receipts, agent), s'.live, w.exits + w.lateExits)
      && ReceiptsKept(s.receipts, s'.receipts, agent)
    case Exits(pids) => s' == s.(live := s.live - pids)
    case Restart => s' == s
  }

  /** No call before the nth dies in the window. */
  ghost predicate SafeBefore(states: seq<Snapshot>, calls: seq<Call>, n: nat)
    requires n <= |calls| && n <= |states|
  {
    forall i | 0 <= i < n :: !InWindow(states[i], calls[i])
  }

  /** The moments of a run. */
  ghost predicate IsRun(states: seq<Snapshot>, calls: seq<Call>) {
    |states| == |calls| + 1 && forall i | 0 <= i < |calls| :: Leads(states[i], calls[i], states[i + 1])
  }

  lemma LeadsToNoOrphans(s: Snapshot, call: Call, s': Snapshot)
    requires NoOrphans(s.live, s.receipts) && Leads(s, call, s')
    ensures NoOrphans(s'.live, s'.receipts) <==> !InWindow(s, call)
  {
    if call.Apply? {
      OrphansOnlyFromTheWindow(s.live, s.receipts, s.next, s'.live, s'.receipts, InWindow(s, call));
    } else if call.Exits? {
      ExitsOrphanNobody(s.live, s.receipts, call.pids);
    }
  }

  /** In every run, as long as no call dies in the window, each agent has at most one live process and
      its receipt names it; and the first call that does die there leaves an orphan. */
  lemma {:induction false} AtMostOneUntilTheWindow(states: seq<Snapshot>, calls: seq<Call>, n: nat)
    requires IsRun(states, calls) && n <= |calls| && NoOrphans(states[0].live, states[0].receipts)
    requires SafeBefore(states, calls, n)
    ensures NoOrphans(states[n].live, states[n].receipts) && AtMostOne(states[n].live)
    ensures n < |calls| ==>
      (NoOrphans(states[n + 1].live, states[n + 1].receipts) <==> !InWindow(states[n], calls[n]))
  {
    hide Leads, InWindow, NoOrphans, AtMostOne;
    if n > 0 {
      AtMostOneUntilTheWindow(states, calls, n - 1);
      assert !InWindow(states[n - 1], calls[n - 1]);
      assert Leads(states[n - 1], calls[n - 1], states[n - 1 + 1]);
    }
    NoOrphansIsAtMostOne(states[n].live, states[n].receipts);
    if n < |calls| {
      assert Leads(states[n], calls[n], states[n + 1]);
      LeadsToNoOrphans(states[n], calls[n], states[n + 1]);
    }
  }

  class World {
    var live: map<Pid, Process>          // the processes that exist
    var managed: set<Pid>                // children of the present daemon
    var next: Pid
    var receipts: map<AgentId, Receipt>  // durable
    ghost var starts: nat
    ghost var stops: nat

    /** Holds always, also after a daemon died at any point. */
    ghost predicate Fit()
      reads this
    {
      Fits(live, receipts, next)
    }

    /** Holds unless a daemon died between starting a process and recording it. */
    ghost predicate Valid()
      reads this
    {
      Fit() && NoOrphans(live, receipts)
    }

    constructor ()
      ensures Valid() && live == map[] && receipts == map[]
    {
      live, managed, next, receipts := map[], {}, 1, map[];
      starts, stops := 0, 0;
    }

    /** Looks at the process of a receipt: terminal exactly when it is dead, identity unchanged. */
    method Inspect(r: Receipt, exits: set<Pid>, ready: bool, code: Option<int>, fails: bool)
      returns (observed: Option<Receipt>)
      requires !r.state.IsTerminal() || r.pid !in live
      modifies `live
      ensures live == old(live) - exits
      ensures fails <==> observed.None?
      ensures observed.Some? ==>
        && SameButState(r, observed.value)
        && (observed.value.state.IsTerminal() <==> r.pid !in live)
    {
      live := live - exits;
      if fails { return None; }
      observed := Some(r);
      if r.pid in live {
        if r.state == Starting && ready { observed := Observe(r, Healthy, None); }
      } else if !r.state.IsTerminal() {
        observed := if r.pid in managed then Observe(r, Exited, code) else Observe(r, Lost, None);
      }
    }

    /** Stops the process of a receipt: on success it is dead and the receipt is terminal. */
    method Stop(r: Receipt, exits: set<Pid>, code: Option<int>, fails: bool, diesAnyway: bool)
      returns (stopped: Option<Receipt>)
      requires !r.state.IsTerminal()
      modifies `live, `stops
      ensures stops == old(stops) + 1
      ensures live == old(live) - exits || live == old(live) - exits - {r.pid}
      ensures fails <==> stopped.None?
      ensures stopped.Some? ==>
        && r.pid !in live && stopped.value.state.IsTerminal()
        && SameButState(r, stopped.value)
    {
      stops := stops + 1;
      live := live - exits;
      if fails {
        if diesAnyway { live := live - {r.pid}; }
        return None;
      }
      live := live - {r.pid};
      stopped := if r.pid in managed then Observe(r, Exited, code) else Observe(r, Lost, None);
    }

    /** Starts a launch: on success a new live process described by the receipt, on failure none. */
    method Start(desired: Launch, fails: Option<StartFailure>) returns (started: Option<Receipt>)
      modifies `live, `managed, `next, `starts
      ensures fails.Some? ==> started.None? && live == old(live) && next == old(next) && starts == old(starts)
      ensures fails.None? ==>
        && starts == old(starts) + 1 && next == old(next) + 1
        && live == old(live)[old(next) := Process(desired.agent, desired.identity)]
        && started == Some(FirstReceipt(desired, old(next)))
    {
      if fails.Some? { return None; }
      var pid := next;
      live, managed, next := live[pid := Process(desired.agent, desired.identity)], managed + {pid}, next + 1;
      starts := starts + 1;
      return Some(FirstReceipt(desired, pid));
    }

    /** What a successful call leaves: exactly the desired process, recorded, or no process at all. */
    ghost predicate Settled(agent: AgentId, desired: Desired, launch: Option<Launch>)
      reads this
    {
      if desired.Enabled?
      then launch.Some? && agent in receipts && CanAdopt(launch.value, receipts[agent]) && receipts[agent].pid in live
      else agent !in receipts && HasNone(live, agent)
    }

    /** Inspects the process of an agent's receipt. */
    method Look(agent: AgentId, w: Weather) returns (observed: Option<Receipt>)
      requires Fit() && agent in receipts
      modifies `live
      ensures Goes(old(live), receipts, live, receipts, next, agent, w.exits + w.lateExits)
      ensures live == old(live) - w.exits
      ensures w.inspectFails <==> observed.None?
      ensures observed.Some? ==>
        && SameButState(receipts[agent], observed.value)
        && (observed.value.state.IsTerminal() <==> observed.value.pid !in live)
    {
      assert receipts[agent].pid in live ==> !receipts[agent].state.IsTerminal();
      ExitsGo(live, receipts, next, agent, w.exits, w.lateExits);
      hide Fits, Goes;
      observed := Inspect(receipts[agent], w.exits, w.ready, w.code, w.inspectFails);
    }

    /** Stops the process of an agent's receipt, as it was last observed. */
    method Halt(agent: AgentId, r: Receipt, w: Weather) returns (stopped: Option<Receipt>)
      requires Fit() && agent in receipts && SameButState(receipts[agent], r) && !r.state.IsTerminal()
      modifies `live, `stops
      ensures Goes(old(live), receipts, live, receipts, next, agent, w.exits + w.lateExits) && stops == old(stops) + 1
      ensures w.stopFails <==> stopped.None?
      ensures stopped.Some? ==>
        SameButState(receipts[agent], stopped.value) && stopped.value.state.IsTerminal() && stopped.value.pid !in live
    {
      ExitsGo(live, receipts, next, agent, w.lateExits, w.exits);
      EndGoes(live, receipts, next, agent, w.lateExits, w.exits);
      assert w.lateExits + w.exits == w.exits + w.lateExits;
      hide Fits, Goes;
      stopped := Stop(r, w.lateExits, w.code, w.stopFails, w.diesAnyway);
    }

    method PutReceipt(agent: AgentId, r: Receipt, ghost exits: set<Pid>)
      requires Fit() && agent in receipts && SameButState(receipts[agent], r)
      requires r.state.IsTerminal() ==> r.pid !in live
      modifies `receipts
      ensures receipts == old(receipts)[agent := r]
      ensures Goes(live, old(receipts), live, receipts, next, agent, exits)
    {
      ObservingFits(live, receipts, next, agent, r);
      GoesNowhere(live, receipts, next, agent, exits);
      hide Fits, Evolves;
      receipts := receipts[agent := r];
    }

    method DeleteReceipt(agent: AgentId, ghost exits: set<Pid>)
      requires Fit() && Dead(live, receipts, agent)
      modifies `receipts
      ensures receipts == old(receipts) - {agent}
      ensures Goes(live, old(receipts), live, receipts, next, agent, exits)
    {
      ForgettingFits(live, receipts, next, agent);
      GoesNowhere(live, receipts, next, agent, exits);
      hide Fits, Evolves;
      receipts := receipts - {agent};
    }

    /** Inspects the process of an agent's receipt and saves what was seen. */
    method Examine(agent: AgentId, w: Weather) returns (observed: Option<Receipt>)
      requires Fit() && agent in receipts
      modifies `live, `receipts
      ensures Goes(old(live), old(receipts), live, receipts, next, agent, w.exits + w.lateExits)
      ensures live == old(live) - w.exits
      ensures observed.None? <==> w.inspectFails || w.budget == 0
      ensures PidOf(receipts, agent) == old(PidOf(receipts, agent))
      ensures observed.Some? ==>
        && agent in receipts && receipts[agent] == observed.value && SameButState(old(receipts)[agent], observed.value)
        && (observed.value.state.IsTerminal() <==> observed.value.pid !in live)
    {
      hide Fits, Goes;
      ghost var exits := w.exits + w.lateExits;
      observed := Look(agent, w);
      GoesFits(old(live), receipts, live, receipts, next, agent, exits);
      if observed.None? || w.budget == 0 { return None; }
      PutReceipt(agent, observed.value, exits);
      GoesOn(old(live), old(receipts), live, old(receipts), live, receipts, next, agent, exits);
    }

    /** Stops the process of a receipt that cannot be adopted and saves the end of it. */
    method Replace(agent: AgentId, w: Weather) returns (outcome: Option<Outcome>)
      requires Fit() && agent in receipts && !receipts[agent].state.IsTerminal() && w.budget > 0
      modifies `live, `receipts, `stops
      ensures Goes(old(live), old(receipts), live, receipts, next, agent, w.exits + w.lateExits)
      ensures outcome == if w.budget == 1 then Some(Crashed) else if w.stopFails then Some(Error)
                         else if w.budget == 2 then Some(Crashed) else None
      ensures PidOf(receipts, agent) == old(PidOf(receipts, agent))
      ensures outcome == None ==> Dead(live, receipts, agent)
    {
      ghost var exits := w.exits + w.lateExits;
      GoesNowhere(live, receipts, next, agent, exits);
      hide Fits, Goes;
      if w.budget == 1 { return Some(Crashed); }
      var stopped := Halt(agent, receipts[agent], w);
      GoesFits(old(live), receipts, live, receipts, next, agent, exits);
      if stopped.None? { return Some(Error); }
      if w.budget == 2 { return Some(Crashed); }
      PutReceipt(agent, stopped.value, exits);
      GoesOn(old(live), old(receipts), live, old(receipts), live, receipts, next, agent, exits);
      return None;
    }

    /** Deals with an earlier receipt: its process is adopted, or it is dead. `spent` counts effects. */
    method Supersede(desired: Launch, w: Weather) returns (outcome: Option<Outcome>, spent: nat)
      requires Fit() && desired.agent in receipts
      modifies `live, `receipts, `stops
      ensures Goes(old(live), old(receipts), live, receipts, next, desired.agent, w.exits + w.lateExits)
      ensures PidOf(receipts, desired.agent) == old(PidOf(receipts, desired.agent))
      ensures outcome in {None, Some(Adopted), Some(Error), Some(Crashed)}
      ensures outcome == Some(Crashed) ==> w.budget < COMPLETE
      ensures outcome == Some(Adopted) ==> Settled(desired.agent, Enabled, Some(desired)) && stops == old(stops)
      ensures outcome == None ==> Dead(live, receipts, desired.agent)
      ensures outcome == None ==>
        old(EffectsBeforeStart(live, receipts, desired, w)) == Some(spent) && spent <= 3 && spent <= w.budget
      ensures outcome.Some? ==> !old(DiesInWindow(live, receipts, desired, w))
      ensures w.budget >= COMPLETE ==>
        StartEnds(old(live), old(receipts), desired, w,
                  if outcome.Some? then outcome.value else StartOutcome(w.startFails))
      ensures old(Settled(desired.agent, Enabled, Some(desired))) && Calm(w) ==>
        outcome == Some(Adopted) && live == old(live)
    {
      var agent := desired.agent;
      assert receipts[agent].pid > 0;
      ghost var exits := w.exits + w.lateExits;
      hide Fits, Goes;
      hide StartEnds, StartOutcome;
      var observed := Examine(agent, w);
      assert w.exits == {} ==> live == old(live);
      GoesFits(old(live), old(receipts), live, receipts, next, agent, exits);
      if w.inspectFails { InspectionFails(old(live), old(receipts), desired, w); }
      if observed.None? { return Some(if w.inspectFails then Error else Crashed), 0; }
      StartEndsAs(old(live), old(receipts), desired, w, observed.value);
      if CanAdopt(desired, observed.value) { return Some(Adopted), 1; }
      if observed.value.state.IsTerminal() { return None, 1; }
      ghost var live1, receipts1 := live, receipts;
      outcome := Replace(agent, w);
      GoesOn(old(live), old(receipts), live1, receipts1, live, receipts, next, agent, exits);
      spent := 3;
    }

    /** Starts a process for an agent whose recorded process is dead, and records it before reporting
        presence. The daemon may die before either. */
    method StartNew(desired: Launch, w: Weather, spent: nat) returns (outcome: Outcome)
      requires Fit() && Dead(live, receipts, desired.agent) && spent <= w.budget
      modifies `live, `managed, `next, `receipts, `starts
      ensures Fit() && ReceiptsKept(old(receipts), receipts, desired.agent)
      ensures OrphansAre(old(live), old(receipts), old(next), live, receipts,
                         w.startFails.None? && w.budget == spent + 1)
      ensures Spared(old(live), old(PidOf(receipts, desired.agent)), live, {})
      ensures outcome in {Started, FailedPreflight, NoPresence, Error, Crashed}
      ensures outcome == Crashed <==> w.budget == spent || (w.startFails.None? && w.budget == spent + 1)
      ensures outcome == Started ==>
        Settled(desired.agent, Enabled, Some(desired)) && receipts[desired.agent].pid == old(next)
      ensures outcome in {FailedPreflight, NoPresence} ==> Dead(live, receipts, desired.agent)
      ensures outcome == FailedPreflight ==> w.startFails == Some(Preflight)
      ensures outcome == NoPresence ==> w.startFails in {Some(SecretResolution), Some(InvalidSpec)}
      ensures starts == old(starts) + if old(next) in live then 1 else 0
      ensures old(next) in live ==> live[old(next)] == Process(desired.agent, desired.identity)
      ensures outcome == Started <==> w.startFails.None? && w.budget >= spent + 2
      ensures w.budget >= spent + 2 ==> outcome == StartOutcome(w.startFails)
      ensures outcome == Started ==> old(next) in live
      ensures outcome != Started ==> receipts == old(receipts)
    {
      StartFacts(live, receipts, next, desired);
      hide Fits, Evolves, Spared, IsOrphan, Dead;
      if w.budget == spent { return Crashed; }
      var started := Start(desired, w.startFails);
      if started.None? {
        match w.startFails.value {
          case Preflight => return FailedPreflight;
          case SecretResolution | InvalidSpec => return NoPresence;
          case Other => return Error;
        }
      }
      if w.budget == spent + 1 { return Crashed; }
      receipts := receipts[desired.agent := started.value];
      return Started;
    }

    /** An agent with a receipt: its process is adopted, or replaced by a new one. */
    method AdoptOrRestart(desired: Launch, w: Weather) returns (outcome: Outcome)
      requires Fit() && desired.agent in receipts
      modifies this
      ensures Fit() && ReceiptsKept(old(receipts), receipts, desired.agent)
      ensures OrphansAre(old(live), old(receipts), old(next), live, receipts,
                         old(DiesInWindow(live, receipts, desired, w)))
      ensures Spared(old(live), old(PidOf(receipts, desired.agent)), live, w.exits + w.lateExits)
      ensures outcome in {Adopted, Started, FailedPreflight, NoPresence, Error, Crashed}
      ensures old(DiesInWindow(live, receipts, desired, w)) ==> outcome == Crashed
      ensures outcome == Crashed ==> w.budget < COMPLETE
      ensures outcome in {Adopted, Started} ==> Settled(desired.agent, Enabled, Some(desired))
      ensures outcome == Started ==> receipts[desired.agent].pid == old(next) && starts == old(starts) + 1
      ensures outcome == Adopted ==> starts == old(starts) && stops == old(stops)
      ensures outcome in {FailedPreflight, NoPresence} ==> Dead(live, receipts, desired.agent)
      ensures outcome == FailedPreflight ==> w.startFails == Some(Preflight)
      ensures outcome == NoPresence ==> w.startFails in {Some(SecretResolution), Some(InvalidSpec)}
      ensures old(next) in live ==> live[old(next)] == Process(desired.agent, desired.identity)
      ensures w.budget >= COMPLETE ==> StartEnds(old(live), old(receipts), desired, w, outcome)
      ensures old(Settled(desired.agent, Enabled, Some(desired))) && Calm(w) ==>
        outcome == Adopted && starts == old(starts) && stops == old(stops) && live == old(live)
    {
      ghost var live0, receipts0 := live, receipts;
      ghost var exits := w.exits + w.lateExits;
      hide Fits, Goes, Evolves, Spared, IsOrphan, ReceiptsKept, OrphansAre, EffectsBeforeStart, Settled, Dead, PidOf,
           StartEnds;
      var done, spent := Supersede(desired, w);
      GoingOrphansNobody(live0, receipts0, live, receipts, next, desired.agent, exits);
      GoesBelow(live0, receipts0, live, receipts, next, desired.agent, exits);
      if done.Some? { return done.value; }
      ghost var live1, receipts1 := live, receipts;
      outcome := StartNew(desired, w, spent);
      WholeStart(live0, receipts0, live1, receipts1, old(next), live, receipts, desired.agent, exits,
                 old(DiesInWindow(live, receipts, desired, w)));
    }

    method EnsureStarted(desired: Launch, w: Weather) returns (outcome: Outcome)
      requires Fit()
      modifies this
      ensures Fit() && ReceiptsKept(old(receipts), receipts, desired.agent)
      ensures OrphansAre(old(live), old(receipts), old(next), live, receipts,
                         old(DiesInWindow(live, receipts, desired, w)))
      ensures Spared(old(live), old(PidOf(receipts, desired.agent)), live, w.exits + w.lateExits)
      ensures outcome in {Adopted, Started, FailedPreflight, NoPresence, Error, Crashed}
      ensures old(DiesInWindow(live, receipts, desired, w)) ==> outcome == Crashed
      ensures outcome == Crashed ==> w.budget < COMPLETE
      ensures outcome in {Adopted, Started} ==> Settled(desired.agent, Enabled, Some(desired))
      ensures outcome == Started ==> receipts[desired.agent].pid == old(next) && starts == old(starts) + 1
      ensures outcome == Adopted ==> starts == old(starts) && stops == old(stops)
      ensures outcome in {FailedPreflight, NoPresence} ==> Dead(live, receipts, desired.agent)
      ensures outcome == FailedPreflight ==> w.startFails == Some(Preflight)
      ensures outcome == NoPresence ==> w.startFails in {Some(SecretResolution), Some(InvalidSpec)}
      ensures old(next) in live ==> live[old(next)] == Process(desired.agent, desired.identity)
      ensures w.budget >= COMPLETE ==> StartEnds(old(live), old(receipts), desired, w, outcome)
      ensures desired.agent !in old(receipts) ==>
        && (outcome == Started <==> w.startFails.None? && w.budget >= 2)
        && (outcome != Started ==> receipts == old(receipts))
      ensures old(Settled(desired.agent, Enabled, Some(desired))) && Calm(w) ==>
        outcome == Adopted && starts == old(starts) && stops == old(stops) && live == old(live)
    {
      assert desired.agent !in receipts ==> EffectsBeforeStart(live, receipts, desired, w) == Some(0);
      assert desired.agent !in receipts ==>
        && Dead(live, receipts, desired.agent) && !Settled(desired.agent, Enabled, Some(desired))
        && StartEnds(live, receipts, desired, w, StartOutcome(w.startFails));
      hide Fits, Evolves, Spared, IsOrphan, ReceiptsKept, OrphansAre, EffectsBeforeStart, Settled, Dead, PidOf,
           StartEnds, StartOutcome;
      if desired.agent in receipts {
        outcome := AdoptOrRestart(desired, w);
      } else {
        outcome := StartNew(desired, w, 0);
        SparedMore(old(live), live, old(PidOf(receipts, desired.agent)), {}, w.exits + w.lateExits);
        assert {} + (w.exits + w.lateExits) == w.exits + w.lateExits;
      }
    }

    method EnsureStopped(agent: AgentId, w: Weather) returns (outcome: Outcome)
      requires Fit()
      modifies this
      ensures Fit() && ReceiptsKept(old(receipts), receipts, agent)
      ensures OrphansAre(old(live), old(receipts), old(next), live, receipts, false)
      ensures Spared(old(live), old(PidOf(receipts, agent)), live, w.exits + w.lateExits)
      ensures outcome in {Unchanged, Stopped, Error, Crashed}
      ensures outcome == Crashed ==> w.budget < COMPLETE
      ensures outcome in {Unchanged, Stopped} ==> agent !in receipts
      ensures starts == old(starts)
      ensures outcome == Stopped ==> stops == old(stops) + 1
      ensures outcome == Unchanged ==> stops == old(stops)
      ensures agent !in old(receipts) ==> outcome == Unchanged && stops == old(stops) && live == old(live)
      ensures w.budget >= COMPLETE ==> StopEnds(old(live), old(receipts), agent, w, outcome)
    {
      ghost var exits := w.exits + w.lateExits;
      outcome := StopRecorded(agent, w);
      GoingOrphansNobody(old(live), old(receipts), live, receipts, next, agent, exits);
    }

    method StopRecorded(agent: AgentId, w: Weather) returns (outcome: Outcome)
      requires Fit()
      modifies `live, `receipts, `stops
      ensures Goes(old(live), old(receipts), live, receipts, next, agent, w.exits + w.lateExits)
      ensures outcome in {Unchanged, Stopped, Error, Crashed}
      ensures outcome == Crashed ==> w.budget < COMPLETE
      ensures outcome in {Unchanged, Stopped} ==> agent !in receipts
      ensures outcome == Stopped ==> stops == old(stops) + 1
      ensures outcome == Unchanged ==> stops == old(stops)
      ensures agent !in old(receipts) ==> outcome == Unchanged && live == old(live)
      ensures w.budget >= COMPLETE ==> StopEnds(old(live), old(receipts), agent, w, outcome)
    {
      ghost var live0, receipts0 := live, receipts;
      ghost var exits := w.exits + w.lateExits;
      GoesNowhere(live, receipts, next, agent, exits);
      assert agent !in receipts ==> StopEnds(live, receipts, agent, w, Unchanged);
      hide Fits, Goes, StopEnds;
      if agent !in receipts { return Unchanged; }
      var observed := Look(agent, w);
      ghost var live1 := live;
      GoesFits(live0, receipts0, live1, receipts0, next, agent, exits);
      if observed.None? {
        assert StopEnds(live0, receipts0, agent, w, Error);
        return Error;
      }
      StopEndsAs(live0, receipts0, agent, w, observed.value);
      if w.budget == 0 { return Crashed; }
      if observed.value.state.IsTerminal() {
        DeleteReceipt(agent, exits);
        GoesOn(live0, receipts0, live1, receipts0, live, receipts, next, agent, exits);
        return Unchanged;
      }
      var stopped := Halt(agent, observed.value, w);
      GoesOn(live0, receipts0, live1, receipts0, live, receipts0, next, agent, exits);
      GoesFits(live0, receipts0, live, receipts0, next, agent, exits);
      if stopped.None? { return Error; }
      if w.budget == 1 { return Crashed; }
      PutReceipt(agent, stopped.value, exits);
      ghost var receipts1 := receipts;
      GoesOn(live0, receipts0, live, receipts0, live, receipts1, next, agent, exits);
      GoesFits(live0, receipts0, live, receipts1, next, agent, exits);
      if w.budget == 2 { return Crashed; }
      DeleteReceipt(agent, exits);
      GoesOn(live0, receipts0, live, receipts1, live, receipts, next, agent, exits);
      return Stopped;
    }

    /** Applies the desired state of an agent. Whatever happens, and wherever the daemon dies, the
        orphans afterwards are the earlier ones, and one more exactly if it died in the window. */
    method ReconcileDesired(agent: AgentId, desired: Desired, launch: Option<Launch>, w: Weather)
      returns (outcome: Outcome)
      requires Fit()
      modifies this
      ensures Fit() && ReceiptsKept(old(receipts), receipts, agent)
      ensures OrphansAre(old(live), old(receipts), old(next), live, receipts,
                         old(Orphans(live, receipts, agent, desired, launch, w)))
      ensures old(Valid()) ==> (Valid() <==> !old(Orphans(live, receipts, agent, desired, launch, w)))
      ensures Spared(old(live), old(PidOf(receipts, agent)), live, w.exits + w.lateExits)
      ensures outcome == Crashed ==> w.budget < COMPLETE
      ensures old(Orphans(live, receipts, agent, desired, launch, w)) ==> outcome == Crashed
      ensures outcome in {Adopted, Started} ==> desired.Enabled?
      ensures desired.Enabled? && (launch.None? || launch.value.agent != agent) ==>
        outcome == Error && live == old(live) && receipts == old(receipts)
      ensures desired.Enabled? && launch.Some? && launch.value.agent == agent && w.budget >= COMPLETE ==>
        StartEnds(old(live), old(receipts), launch.value, w, outcome)
      ensures !desired.Enabled? && w.budget >= COMPLETE ==> StopEnds(old(live), old(receipts), agent, w, outcome)
      ensures old(Valid()) && outcome in {Adopted, Started, Stopped, Unchanged} ==> Settled(agent, desired, launch)
      ensures old(Settled(agent, desired, launch)) && Calm(w) ==>
        outcome in {Adopted, Unchanged} && starts == old(starts) && stops == old(stops) && live == old(live)
    {
      Unmoved(live, receipts, next, PidOf(receipts, agent), w.exits + w.lateExits);
      hide Fits, Evolves, Spared, IsOrphan, StartEnds, StopEnds;
      if desired.Enabled? {
        if launch.None? || launch.value.agent != agent { return Error; }
        outcome := EnsureStarted(launch.value, w);
      } else {
        outcome := EnsureStopped(agent, w);
      }
      if outcome == Crashed { managed := {}; }
      ghost var window := old(Orphans(live, receipts, agent, desired, launch, w));
      if old(NoOrphans(live, receipts)) {
        OrphansOnlyFromTheWindow(old(live), old(receipts), old(next), live, receipts, window);
        if !window && agent !in receipts { DeadWithoutOrphans(live, receipts, agent); }
      }
    }

    /** Reconciles one operation: only a running one touches anything. */
    method ReconcileOperation(agent: AgentId, target: Option<AgentId>, status: Status, row: Option<Desired>,
                              launch: Option<Launch>, w: Weather) returns (outcome: Outcome)
      requires Fit()
      modifies this
      ensures Fit() && ReceiptsKept(old(receipts), receipts, agent)
      ensures Spared(old(live), old(PidOf(receipts, agent)), live, w.exits + w.lateExits)
      ensures old(Valid()) && w.budget >= COMPLETE ==> Valid()
      ensures target != Some(agent) ==> outcome == Error
      ensures target == Some(agent) && status.Pending? ==> outcome == Deferred
      ensures target == Some(agent) && status.IsTerminal() ==> outcome == Unchanged
      ensures target != Some(agent) || !status.Running? ==>
        live == old(live) && receipts == old(receipts) && starts == old(starts) && stops == old(stops)
      ensures old(Valid()) && status.Running? && outcome in {Adopted, Started, Stopped, Unchanged} ==>
        row.Some? && Settled(agent, row.value, launch)
      ensures target == Some(agent) && status.Running? && row.Some? && !row.value.Enabled? && w.budget >= COMPLETE ==>
        StopEnds(old(live), old(receipts), agent, w, outcome)
      ensures target == Some(agent) && status.Running? && row == Some(Enabled) && w.budget >= COMPLETE ==>
        launch.Some? && launch.value.agent == agent ==> StartEnds(old(live), old(receipts), launch.value, w, outcome)
    {
      Unmoved(live, receipts, next, PidOf(receipts, agent), w.exits + w.lateExits);
      if target != Some(agent) { return Error; }
      if status.Pending? { return Deferred; }
      if status.IsTerminal() { return Unchanged; }
      if row.None? { return Error; }
      hide Fits, Spared, NoOrphans, StartEnds, StopEnds;
      outcome := ReconcileDesired(agent, row.value, launch, w);
    }

    /** An immediate second call starts and stops nothing. */
    method ReconcileTwice(agent: AgentId, desired: Desired, launch: Option<Launch>, w: Weather, again: Weather)
      returns (first: Outcome, second: Outcome, ghost starts': nat, ghost stops': nat)
      requires Valid() && Calm(again)
      modifies this
      ensures first in {Adopted, Started, Stopped, Unchanged} ==>
        second in {Adopted, Unchanged} && starts == starts' && stops == stops' && Settled(agent, desired, launch)
    {
      hide Fits, NoOrphans;
      first := ReconcileDesired(agent, desired, launch, w);
      starts', stops' := starts, stops;
      second := ReconcileDesired(agent, desired, launch, again);
    }

    ghost function Now(): Snapshot
      reads this
    {
      Snapshot(live, receipts, next)
    }

    /** One call, exits or a restart: orphans come about exactly by dying in the window. */
    method Do(call: Call)
      requires Fit()
      modifies this
      ensures Fit() && Leads(old(Now()), call, Now())
      ensures old(Valid()) ==> (Valid() <==> !InWindow(old(Now()), call))
    {
      hide Fits, NoOrphans, Evolves, Spared, OrphansAre, ReceiptsKept;
      match call {
        case Apply(agent, desired, launch, weather) =>
          var _ := ReconcileDesired(agent, desired, launch, weather);
        case Exits(pids) =>
          ExitsFit(live, receipts, next, pids);
          if Valid() { ExitsOrphanNobody(live, receipts, pids); }
          live := live - pids;
        case Restart => managed := {};
      }
    }

    /** Any run of reconcile calls, exits and daemon restarts, on any agents, with daemons that die at
        any point. At every moment before which no daemon died between starting a process and
        recording it, each agent has at most one live process, and it is recorded; the first daemon
        that dies there leaves an orphan. */
    method Run(calls: seq<Call>) returns (ghost states: seq<Snapshot>)
      requires Valid()
      modifies this
      ensures Fit() && IsRun(states, calls) && states[0] == old(Now()) && states[|calls|] == Now()
      ensures forall n | 0 <= n <= |calls| && SafeBefore(states, calls, n) ::
        NoOrphans(states[n].live, states[n].receipts) && AtMostOne(states[n].live)
      ensures forall n | 0 <= n < |calls| && SafeBefore(states, calls, n) && InWindow(states[n], calls[n]) ::
        !NoOrphans(states[n + 1].live, states[n + 1].receipts)
    {
      states := [Now()];
      for i := 0 to |calls|
        invariant Fit() && |states| == i + 1 && states[0] == old(Now()) && states[i] == Now()
        invariant forall j | 0 <= j < i :: Leads(states[j], calls[j], states[j + 1])
      {
        hide Fits, Leads;
        Do(calls[i]);
        states := states + [Now()];
      }
      forall n | 0 <= n <= |calls| && SafeBefore(states, calls, n)
        ensures NoOrphans(states[n].live, states[n].receipts) && AtMostOne(states[n].live)
        ensures n < |calls| && InWindow(states[n], calls[n]) ==>
          !NoOrphans(states[n + 1].live, states[n + 1].receipts)
      {
        hide Leads, NoOrphans, AtMostOne, InWindow, SafeBefore;
        AtMostOneUntilTheWindow(states, calls, n);
      }
    }

    /** Beside an orphan that lives on, a call that starts a process makes two. */
    method StartBesideOrphan(desired: Launch, w: Weather, ghost orphan: Pid) returns (outcome: Outcome)
      requires Fit() && orphan in live && live[orphan].agent == desired.agent
      requires IsOrphan(live[orphan], orphan, receipts)
      requires orphan !in w.exits + w.lateExits
      modifies this
      ensures Fit() && (outcome == Started ==> !AtMostOne(live))
      ensures desired.agent !in old(receipts) && w.startFails.None? && w.budget >= COMPLETE ==> outcome == Started
    {
      ghost var process := live[orphan];
      assert orphan < next;
      outcome := EnsureStarted(desired, w);
      if outcome == Started {
        assert orphan in live && live[orphan] == process;
        assert receipts[desired.agent].pid in live;
        assert live[receipts[desired.agent].pid].agent == desired.agent;
      }
    }

    /** A daemon that dies in the window leaves an orphan, and the next call starts a second process. */
    method CrashBeforeReceipt(desired: Launch, calm: Weather) returns (first: Outcome, second: Outcome)
      requires Valid() && desired.agent !in receipts
      requires calm.exits == {} && calm.lateExits == {} && calm.startFails == None && calm.budget >= COMPLETE
      modifies this
      ensures first == Crashed && second == Started && !AtMostOne(live)
    {
      ghost var orphan := next;
      first := EnsureStarted(desired, calm.(budget := 1));
      assert orphan in live && IsOrphan(live[orphan], orphan, receipts);
      second := StartBesideOrphan(desired, calm, orphan);
    }
  }
}
