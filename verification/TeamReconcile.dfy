/**
 One reconcile of one AgentTeam, as a function of what it reads: the cluster, the stored status, the clock, and an
 environment that says how many API writes succeed before one fails. A failed write makes the reconcile return an
 error at that point: what it already did to the cluster stays, what it did to its status copy is lost.
 */
module TeamReconcile {
  import opened Options
  import opened TeamSpecs
  import opened TeamStatuses
  import Budget

  datatype JobPhase = JobActive | JobSucceeded | JobFailed

  /** What was the case when an agent's pod was created. */
  datatype Birth = Birth(
    agent: string, at: int, during: Phase, staged: seq<StagedInput>, pods: Pods,
    succeeded: set<string>, granted: set<string>, artifacts: seq<ArtifactStatus>)

  /** The cluster, with the history of pod creations, of agents that ever Succeeded, of approvals ever given and of sends. */
  datatype Cluster = Cluster(
    pods: Pods, granted: set<string>, initJob: Option<JobPhase>, pushJob: Option<JobPhase>,
    births: seq<Birth>, succeeded: set<string>, everGranted: set<string>, sent: seq<DeliveryTarget>)

  datatype JobFault = NoFault | CreateFault | ReadFault

  /** fuel: API writes that succeed; order: how the server lists pods; branch: the rendered branch name, if any. */
  datatype Env = Env(fuel: nat, order: seq<string>, branch: Option<string>, jobFault: JobFault, sends: seq<bool>)

  /** A reconcile in progress: the cluster, its own copy of the status, writes left, and whether no call failed yet. */
  datatype Mem = Mem(cl: Cluster, st: Status, fuel: nat, ok: bool)

  // ---- API writes ----

  function Birthing(m: Mem, agent: string, staged: seq<StagedInput>, now: int): Birth {
    Birth(agent, now, m.st.phase, staged, m.cl.pods, m.cl.succeeded, m.cl.everGranted, m.st.artifacts)
  }

  function EnsureAgentPod(spec: TeamSpec, m: Mem, agent: string, inputs: seq<InputSpec>, now: int): Mem {
    if agent in m.cl.pods then m
    else if m.fuel == 0 then m.(ok := false)
    else
      var staged := StagedInputs(spec, inputs);
      m.(fuel := m.fuel - 1,
         cl := m.cl.(pods := m.cl.pods[agent := Pod(PodPending, staged)],
                     births := m.cl.births + [Birthing(m, agent, staged, now)]))
  }

  function DeletePod(m: Mem, agent: string): Mem {
    if m.fuel == 0 then m.(ok := false)
    else m.(fuel := m.fuel - 1, cl := m.cl.(pods := m.cl.pods - {agent}))
  }

  function Commit(m: Mem): Mem {
    if m.fuel == 0 then m.(ok := false) else m.(fuel := m.fuel - 1)
  }

  /** Deleting, in the order given, every listed pod that exists. */
  function DeletePods(m: Mem, names: seq<string>): Mem {
    if names == [] then m
    else
      var before := DeletePods(m, names[..|names| - 1]);
      if !before.ok || names[|names| - 1] !in before.cl.pods then before
      else DeletePod(before, names[|names| - 1])
  }

  /** The server lists the team's pods in an order of its own: first the env's, then any it leaves out. */
  function Listing(spec: TeamSpec, env: Env): seq<string> { env.order + AgentNames(spec) }

  function TerminateAllPods(spec: TeamSpec, m: Mem, env: Env): Mem { DeletePods(m, Listing(spec, env)) }

  // ---- Limits ----

  function IsTimedOut(spec: TeamSpec, st: Status, now: int): bool {
    st.startedAt.Some?
    && match (if spec.lifecycle.None? then Default else spec.lifecycle.value.timeout)
       case Default => now - st.startedAt.value > 4 * 3600 * SECOND
       case Unparsable => false
       case Parsed(d) => now - st.startedAt.value > d
  }

  function EstimatedCost(spec: TeamSpec, st: Status, now: int): real {
    if st.startedAt.None? then 0.0 else Budget.TeamCost(Models(spec), (now - st.startedAt.value) / SECOND)
  }

  function IsBudgetExceeded(spec: TeamSpec, st: Status, now: int): bool {
    spec.lifecycle.Some? && spec.lifecycle.value.budgetLimit.Some?
    && Budget.OverBudget(spec.lifecycle.value.budgetLimit.value, EstimatedCost(spec, st, now))
  }

  // ---- Phases ----

  function ReconcilePending(spec: TeamSpec, m: Mem, now: int): Mem {
    if spec.hasRepository && m.cl.initJob.None? then
      if m.fuel == 0 then m.(ok := false)
      else StartInitializing(m.(fuel := m.fuel - 1, cl := m.cl.(initJob := Some(JobActive))), now)
    else StartInitializing(m, now)
  }

  function StartInitializing(m: Mem, now: int): Mem {
    Commit(m.(st := m.st.(phase := Initializing, startedAt := Some(now))))
  }

  function Hold(m: Mem, name: string, event: string): Mem {
    m.(st := m.st.(teammates := SetPendingApproval(m.st.teammates, name, event)))
  }

  function FirstSpawn(spec: TeamSpec, m: Mem, tm: TeammateSpec, now: int): Mem {
    var held := HeldAt(spec, m.cl.granted, tm.name);
    if !DependenciesMet(m.cl.pods, EffectiveDependencies(spec, tm)) then m
    else if held != "" then Hold(m, tm.name, held)
    else EnsureAgentPod(spec, m, tm.name, tm.inputs, now)
  }

  function FirstSpawns(spec: TeamSpec, m: Mem, n: nat, now: int): Mem
    requires n <= |spec.teammates|
  {
    if n == 0 then m
    else
      var before := FirstSpawns(spec, m, n - 1, now);
      if before.ok then FirstSpawn(spec, before, spec.teammates[n - 1], now) else before
  }

  function ReconcileInitializing(spec: TeamSpec, m: Mem, now: int): Mem {
    if IsTimedOut(spec, m.st, now) then Commit(m.(st := m.st.(phase := TimedOut)))
    else if spec.hasRepository && m.cl.initJob == Some(JobFailed) then Commit(m.(st := m.st.(phase := Failed)))
    else if spec.hasRepository && m.cl.initJob != Some(JobSucceeded) then m
    else Deploy(spec, m, now)
  }

  function Deploy(spec: TeamSpec, m: Mem, now: int): Mem {
    var m1 := EnsureAgentPod(spec, m, LEAD, [], now);
    if !m1.ok then m1
    else
      var m2 := FirstSpawns(spec, m1, |spec.teammates|, now);
      if !m2.ok then m2 else Commit(m2.(st := m2.st.(phase := Running)))
  }

  /** Status sync: agent phases, the roster, artifacts of Succeeded teammates, and the pipeline. */
  function Observe(spec: TeamSpec, m: Mem, now: int): Mem {
    var entries := SyncedEntries(spec, m.st.teammates, m.cl.pods);
    m.(st := m.st.(
      estimatedCost := EstimatedCost(spec, m.st, now),
      lead := if LEAD in m.cl.pods then AgentPhaseOf(m.cl.pods[LEAD].phase) else m.st.lead,
      teammates := entries,
      ready := ReadyCount(entries),
      artifacts := RecordSucceeded(spec.teammates, m.cl.pods, m.st.artifacts, now),
      pipeline := UpdatedPipeline(spec, entries, m.st.pipeline, m.cl.granted, now)))
  }

  /** A reconcile in progress, and the teammate found to have used up its restarts, or "". */
  datatype Checked = Checked(m: Mem, fatal: string)

  function Respawn(spec: TeamSpec, m: Mem, tm: TeammateSpec, now: int): Checked {
    var count := RestartCount(m.st.teammates, tm.name);
    if !HasFailed(m.cl.pods, tm.name) then Checked(m, "")
    else if count >= MaxRestarts(spec) then Checked(m, tm.name)
    else
      var m1 := DeletePod(m, tm.name);
      if !m1.ok then Checked(m1, "")
      else
        var m2 := m1.(st := m1.st.(teammates := SetRestartCount(m1.st.teammates, tm.name, count + 1)));
        Checked(EnsureAgentPod(spec, m2, tm.name, tm.inputs, now), "")
  }

  function Respawns(spec: TeamSpec, m: Mem, n: nat, now: int): Checked
    requires n <= |spec.teammates|
  {
    if n == 0 then Checked(m, "")
    else
      var before := Respawns(spec, m, n - 1, now);
      if before.m.ok && before.fatal == "" then Respawn(spec, before.m, spec.teammates[n - 1], now) else before
  }

  function LateSpawn(spec: TeamSpec, m: Mem, tm: TeammateSpec, now: int): Mem {
    var held := HeldAt(spec, m.cl.granted, tm.name);
    if tm.name in m.cl.pods || !DependenciesMet(m.cl.pods, EffectiveDependencies(spec, tm)) then m
    else if held != "" then Hold(m, tm.name, held)
    else
      EnsureAgentPod(spec, m.(st := m.st.(teammates := ClearPendingApproval(m.st.teammates, tm.name))), tm.name, tm.inputs, now)
  }

  function LateSpawns(spec: TeamSpec, m: Mem, n: nat, now: int): Mem
    requires n <= |spec.teammates|
  {
    if n == 0 then m
    else
      var before := LateSpawns(spec, m, n - 1, now);
      if before.ok then LateSpawn(spec, before, spec.teammates[n - 1], now) else before
  }

  predicate AllAgentsSucceeded(spec: TeamSpec, pods: Pods) {
    Succeeded(pods, LEAD) && forall i :: 0 <= i < |spec.teammates| ==> Succeeded(pods, spec.teammates[i].name)
  }

  predicate AnyAgentFailed(spec: TeamSpec, pods: Pods) {
    HasFailed(pods, LEAD) || exists i :: 0 <= i < |spec.teammates| && HasFailed(pods, spec.teammates[i].name)
  }

  datatype Finalization = Ready(m: Mem) | Waiting(m: Mem) | Broken(m: Mem)

  predicate NeedsPush(spec: TeamSpec, st: Status) {
    OnComplete(spec) in ["push-branch", "create-pr"] && spec.hasRepository && st.consolidatedBranch == ""
  }

  function RunFinalization(spec: TeamSpec, m: Mem, env: Env): Finalization {
    if !NeedsPush(spec, m.st) then Ready(m)
    else if env.branch.None? || env.jobFault.CreateFault? then Broken(m)
    else
      var m1 := if m.cl.pushJob.None? then m.(cl := m.cl.(pushJob := Some(JobActive))) else m;
      if env.jobFault.ReadFault? || m1.cl.pushJob == Some(JobFailed) then Broken(m1)
      else if m1.cl.pushJob == Some(JobActive) then Waiting(m1)
      else Ready(m1.(st := m1.st.(consolidatedBranch := env.branch.value)))
  }

  function Deliveries(targets: seq<DeliveryTarget>, sends: seq<bool>, now: int): (r: seq<DeliveryStatus>)
    ensures |r| == |targets|
    ensures forall i :: 0 <= i < |r| ==> r[i].kind == targets[i].kind && r[i].target == targets[i].address && r[i].deliveredAt == now
    ensures forall i :: 0 <= i < |r| ==> (r[i].success <==> i < |sends| && sends[i])
  {
    seq(|targets|, i requires 0 <= i < |targets| =>
      DeliveryStatus(targets[i].kind, targets[i].address, now, i < |sends| && sends[i]))
  }

  function Deliver(spec: TeamSpec, m: Mem, env: Env, now: int): Mem {
    if OnComplete(spec) != "deliver" || spec.lifecycle.None? then m
    else
      var targets := spec.lifecycle.value.delivery;
      m.(cl := m.cl.(sent := m.cl.sent + targets),
         st := m.st.(delivery := m.st.delivery + Deliveries(targets, env.sends, now)))
  }

  function Conclude(spec: TeamSpec, m: Mem, env: Env, now: int): Mem {
    if AnyAgentFailed(spec, m.cl.pods) then Commit(m.(st := m.st.(phase := Failed)))
    else if AllAgentsSucceeded(spec, m.cl.pods) then
      match RunFinalization(spec, m, env)
      case Broken(m1) => Commit(m1.(st := m1.st.(phase := Failed)))
      case Waiting(m1) => Commit(m1)
      case Ready(m1) =>
        var m2 := Deliver(spec, m1, env, now);
        Commit(m2.(st := m2.st.(phase := Completed)))
    else Commit(m)
  }

  /** A Running reconcile within deadline and budget. */
  function Supervise(spec: TeamSpec, m: Mem, env: Env, now: int): Mem {
    var checked := Respawns(spec, Observe(spec, m, now), |spec.teammates|, now);
    if !checked.m.ok then checked.m
    else if checked.fatal != "" then Commit(checked.m.(st := checked.m.st.(phase := Failed)))
    else
      var m1 := LateSpawns(spec, checked.m, |spec.teammates|, now);
      if !m1.ok then m1 else Conclude(spec, m1, env, now)
  }

  /** Stop the team for the given reason: delete its pods, then record the phase. */
  function Halt(spec: TeamSpec, m: Mem, env: Env, reason: Phase): Mem {
    var m1 := TerminateAllPods(spec, m, env);
    if !m1.ok then m1 else Commit(m1.(st := m1.st.(phase := reason)))
  }

  function ReconcileRunning(spec: TeamSpec, m: Mem, env: Env, now: int): Mem {
    if IsTimedOut(spec, m.st, now) then Halt(spec, m, env, TimedOut)
    else if IsBudgetExceeded(spec, m.st, now) then
      Halt(spec, m.(st := m.st.(estimatedCost := EstimatedCost(spec, m.st, now))), env, BudgetExceeded)
    else Supervise(spec, m, env, now)
  }

  function ReconcileTerminal(spec: TeamSpec, m: Mem, env: Env, now: int): Mem {
    var m1 := TerminateAllPods(spec, m, env);
    if !m1.ok || m1.st.completedAt.Some? then m1
    else Commit(m1.(st := m1.st.(completedAt := Some(now))))
  }

  function Reconcile(spec: TeamSpec, m: Mem, env: Env, now: int): Mem {
    match m.st.phase
    case Unset => ReconcilePending(spec, m, now)
    case Pending => ReconcilePending(spec, m, now)
    case Initializing => ReconcileInitializing(spec, m, now)
    case Running => ReconcileRunning(spec, m, env, now)
    case OtherPhase(_) => Commit(m.(st := m.st.(phase := Pending)))
    case _ => ReconcileTerminal(spec, m, env, now)
  }
}
