/**
 The AgentTeam controller: methods that change the API server's objects and the AgentTeam they hold step by step. Each
 is proved to leave the pair exactly as its counterpart in TeamReconcile says.
 */
module TeamControllers {
  import opened Options
  import opened TeamSpecs
  import opened TeamStatuses
  import opened TeamReconcile
  import opened TeamRuns
  import opened TeamGraph
  import opened TeamObjects

  /** The objects of one team on the server. writesLeft says how many writes succeed before one fails. */
  class ApiServer {
    var pods: Pods
    var granted: set<string>
    var initJob: Option<JobPhase>
    var pushJob: Option<JobPhase>
    var stored: Status
    var writesLeft: nat
    ghost var births: seq<Birth>
    ghost var succeeded: set<string>
    ghost var everGranted: set<string>
    ghost var sent: seq<DeliveryTarget>

    ghost function View(): Cluster reads this {
      Cluster(pods, granted, initJob, pushJob, births, succeeded, everGranted, sent)
    }

    method UpdateStatus(team: AgentTeam) returns (err: bool)
      modifies this`stored, this`writesLeft
      ensures Mem(View(), team.View(), writesLeft, !err) == Commit(Mem(View(), team.View(), old(writesLeft), true))
      ensures stored == if err then old(stored) else team.View()
    {
      err := writesLeft == 0;
      if !err {
        writesLeft, stored := writesLeft - 1, team.View();
      }
    }

    method Delete(agent: string) returns (err: bool)
      modifies this`pods, this`writesLeft
      ensures Mem(View(), stored, writesLeft, !err) == DeletePod(old(Mem(View(), stored, writesLeft, true)), agent)
    {
      err := writesLeft == 0;
      if !err {
        writesLeft, pods := writesLeft - 1, pods - {agent};
      }
    }
  }

  /** A reconcile in progress, as its definition sees it. */
  ghost function Live(api: ApiServer, team: AgentTeam, err: bool): Mem
    reads api, team
  {
    Mem(api.View(), team.View(), api.writesLeft, !err)
  }

  method EnsureAgentPod(api: ApiServer, team: AgentTeam, agent: string, inputs: seq<InputSpec>, now: int) returns (err: bool)
    modifies api`pods, api`writesLeft, api`births
    ensures Live(api, team, err) == TeamReconcile.EnsureAgentPod(team.spec, old(Live(api, team, false)), agent, inputs, now)
  {
    if agent in api.pods {
      return false;
    }
    var staged := StageInputs(team.spec, inputs);
    if api.writesLeft == 0 {
      return true;
    }
    api.births := api.births + [Birthing(Live(api, team, false), agent, staged, now)];
    api.pods := api.pods[agent := Pod(PodPending, staged)];
    api.writesLeft := api.writesLeft - 1;
    err := false;
  }

  /** Whether the pods of all the named agents have Succeeded. */
  method CheckDependencies(api: ApiServer, deps: seq<string>) returns (met: bool)
    ensures met <==> DependenciesMet(api.pods, deps)
  {
    for i := 0 to |deps|
      invariant forall d :: d in deps[..i] ==> Succeeded(api.pods, d)
    {
      if deps[i] !in api.pods || api.pods[deps[i]].phase != PodSucceeded {
        assert deps[i] in deps && !Succeeded(api.pods, deps[i]);
        return false;
      }
    }
    met := true;
  }

  method TerminateAll(api: ApiServer, team: AgentTeam, order: seq<string>) returns (err: bool)
    modifies api`pods, api`writesLeft
    ensures Live(api, team, err) == DeletePods(old(Live(api, team, false)), order + AgentNames(team.spec))
  {
    var listing := order + AgentNames(team.spec);
    err := false;
    for i := 0 to |listing|
      invariant Live(api, team, false) == DeletePods(old(Live(api, team, false)), listing[..i])
    {
      assert listing[..i + 1][..i] == listing[..i];
      if listing[i] in api.pods {
        err := api.Delete(listing[i]);
        if err {
          StoppedStays(old(Live(api, team, false)), listing, i + 1);
          return;
        }
      }
    }
    assert listing[..|listing|] == listing;
  }

  /** A delete loop that has failed stays as it is. */
  lemma {:induction false} StoppedStays(m: Mem, names: seq<string>, i: nat)
    requires i <= |names| && !DeletePods(m, names[..i]).ok
    ensures DeletePods(m, names) == DeletePods(m, names[..i])
  {
    if i < |names| {
      assert names[..|names| - 1][..i] == names[..i];
      StoppedStays(m, names[..|names| - 1], i);
    } else {
      assert names[..i] == names;
    }
  }

  method CheckTimedOut(team: AgentTeam, now: int) returns (late: bool)
    ensures late <==> IsTimedOut(team.spec, team.View(), now)
  {
    if team.startedAt.None? {
      return false;
    }
    var timeout := if team.spec.lifecycle.None? then Default else team.spec.lifecycle.value.timeout;
    match timeout {
      case Unparsable => late := false;
      case Default => late := now - team.startedAt.value > 4 * 3600 * SECOND;
      case Parsed(d) => late := now - team.startedAt.value > d;
    }
  }

  method EstimateCost(team: AgentTeam, now: int) returns (cost: real)
    ensures cost == EstimatedCost(team.spec, team.View(), now)
  {
    var tracker := team.NewTeamTracker(now);
    cost := tracker.GetTotalCost();
  }

  method CheckBudgetExceeded(team: AgentTeam, now: int) returns (over: bool)
    ensures over <==> IsBudgetExceeded(team.spec, team.View(), now)
  {
    if team.spec.lifecycle.None? || team.spec.lifecycle.value.budgetLimit.None? {
      return false;
    }
    var tracker := team.NewTeamTracker(now);
    over := tracker.IsOverBudget();
  }

  // ---- Spawning ----

  /** One pass of the initial spawn loop. */
  method SpawnFirst(api: ApiServer, team: AgentTeam, tm: TeammateSpec, now: int) returns (err: bool)
    requires team.annotations == api.granted
    modifies api`pods, api`writesLeft, api`births, team`teammates
    ensures Live(api, team, err) == FirstSpawn(team.spec, old(Live(api, team, false)), tm, now)
  {
    var deps := CollectEffectiveDependencies(team.spec, tm);
    var met := CheckDependencies(api, deps);
    if !met {
      return false;
    }
    var held := FindGate(team.spec, team.annotations, tm.name);
    if held != "" {
      team.SetTeammatePendingApproval(tm.name, held);
      return false;
    }
    err := EnsureAgentPod(api, team, tm.name, tm.inputs, now);
  }

  /** One pass of the spawn loop of a Running team. */
  method SpawnLate(api: ApiServer, team: AgentTeam, tm: TeammateSpec, now: int) returns (err: bool)
    requires team.annotations == api.granted
    modifies api`pods, api`writesLeft, api`births, team`teammates
    ensures Live(api, team, err) == LateSpawn(team.spec, old(Live(api, team, false)), tm, now)
  {
    if tm.name in api.pods {
      return false;
    }
    var deps := CollectEffectiveDependencies(team.spec, tm);
    var met := CheckDependencies(api, deps);
    if !met {
      return false;
    }
    var held := FindGate(team.spec, team.annotations, tm.name);
    if held != "" {
      team.SetTeammatePendingApproval(tm.name, held);
      return false;
    }
    team.ClearTeammatePendingApproval(tm.name);
    err := EnsureAgentPod(api, team, tm.name, tm.inputs, now);
  }

  method SpawnUnblocked(api: ApiServer, team: AgentTeam, now: int) returns (err: bool)
    requires team.annotations == api.granted
    modifies api`pods, api`writesLeft, api`births, team`teammates
    ensures Live(api, team, err) == LateSpawns(team.spec, old(Live(api, team, false)), |team.spec.teammates|, now)
  {
    hide LateSpawn;
    err := false;
    for i := 0 to |team.spec.teammates|
      invariant Live(api, team, false) == LateSpawns(team.spec, old(Live(api, team, false)), i, now)
    {
      err := SpawnLate(api, team, team.spec.teammates[i], now);
      if err {
        LateStoppedStays(team.spec, old(Live(api, team, false)), i + 1, |team.spec.teammates|, now);
        return;
      }
    }
  }

  lemma {:induction false} LateStoppedStays(spec: TeamSpec, m: Mem, i: nat, n: nat, now: int)
    requires i <= n <= |spec.teammates| && !LateSpawns(spec, m, i, now).ok
    ensures LateSpawns(spec, m, n, now) == LateSpawns(spec, m, i, now)
  {
    if i < n {
      LateStoppedStays(spec, m, i, n - 1, now);
    }
  }

  lemma {:induction false} FirstStoppedStays(spec: TeamSpec, m: Mem, i: nat, n: nat, now: int)
    requires i <= n <= |spec.teammates| && !FirstSpawns(spec, m, i, now).ok
    ensures FirstSpawns(spec, m, n, now) == FirstSpawns(spec, m, i, now)
  {
    if i < n {
      FirstStoppedStays(spec, m, i, n - 1, now);
    }
  }

  // ---- Restarts ----

  /** One pass of the restart loop: the name of a teammate out of restarts, or "". */
  method RestartIfFailed(api: ApiServer, team: AgentTeam, tm: TeammateSpec, now: int) returns (fatal: string, err: bool)
    modifies api`pods, api`writesLeft, api`births, team`teammates
    ensures Checked(Live(api, team, err), fatal) == Respawn(team.spec, old(Live(api, team, false)), tm, now)
  {
    fatal, err := "", false;
    if tm.name !in api.pods || api.pods[tm.name].phase != PodFailed {
      return;
    }
    var count := team.TeammateRestartCount(tm.name);
    if count >= MaxRestarts(team.spec) {
      return tm.name, false;
    }
    err := api.Delete(tm.name);
    if err {
      return;
    }
    team.SetTeammateRestartCount(tm.name, count + 1);
    err := EnsureAgentPod(api, team, tm.name, tm.inputs, now);
  }

  method HandleTeammateFailures(api: ApiServer, team: AgentTeam, now: int) returns (fatal: string, err: bool)
    modifies api`pods, api`writesLeft, api`births, team`teammates
    ensures Checked(Live(api, team, err), fatal) == Respawns(team.spec, old(Live(api, team, false)), |team.spec.teammates|, now)
  {
    hide Respawn;
    fatal, err := "", false;
    for i := 0 to |team.spec.teammates|
      invariant fatal == "" && !err
      invariant Checked(Live(api, team, false), "") == Respawns(team.spec, old(Live(api, team, false)), i, now)
    {
      fatal, err := RestartIfFailed(api, team, team.spec.teammates[i], now);
      if err || fatal != "" {
        CheckedStays(team.spec, old(Live(api, team, false)), i + 1, |team.spec.teammates|, now);
        return;
      }
    }
  }

  lemma {:induction false} CheckedStays(spec: TeamSpec, m: Mem, i: nat, n: nat, now: int)
    requires i <= n <= |spec.teammates| && (!Respawns(spec, m, i, now).m.ok || Respawns(spec, m, i, now).fatal != "")
    ensures Respawns(spec, m, n, now) == Respawns(spec, m, i, now)
  {
    if i < n {
      CheckedStays(spec, m, i, n - 1, now);
    }
  }

  // ---- Completion ----

  method AllPodsComplete(api: ApiServer, team: AgentTeam) returns (allDone: bool, anyFailed: bool)
    ensures anyFailed <==> AnyAgentFailed(team.spec, api.pods)
    ensures allDone <==> AllAgentsSucceeded(team.spec, api.pods) && !anyFailed
  {
    if HasFailed(api.pods, LEAD) {
      return false, true;
    }
    allDone, anyFailed := Succeeded(api.pods, LEAD), false;
    var tms := team.spec.teammates;
    for i := 0 to |tms|
      invariant forall k :: 0 <= k < i ==> !HasFailed(api.pods, tms[k].name)
      invariant allDone <==> Succeeded(api.pods, LEAD) && forall k :: 0 <= k < i ==> Succeeded(api.pods, tms[k].name)
    {
      if HasFailed(api.pods, tms[i].name) {
        return false, true;
      }
      if !Succeeded(api.pods, tms[i].name) {
        allDone := false;
      }
    }
  }

  /** branch is the rendered name, if the template renders; jobFault says which Job call fails, if any. */
  method Finalize(api: ApiServer, team: AgentTeam, env: Env) returns (ready: bool, err: bool)
    modifies api`pushJob, team`consolidatedBranch
    ensures var r := RunFinalization(team.spec, old(Live(api, team, false)), env);
      && r.m == Live(api, team, false)
      && (err <==> r.Broken?) && (ready <==> r.Ready?)
  {
    if team.spec.lifecycle.None? {
      return true, false;
    }
    var mode := team.spec.lifecycle.value.onComplete;
    if mode != "push-branch" && mode != "create-pr" {
      return true, false;
    }
    if !team.spec.hasRepository || team.consolidatedBranch != "" {
      return true, false;
    }
    if env.branch.None? || env.jobFault.CreateFault? {
      return false, true;
    }
    if api.pushJob.None? {
      api.pushJob := Some(JobActive);
    }
    if env.jobFault.ReadFault? || api.pushJob == Some(JobFailed) {
      return false, true;
    }
    if api.pushJob != Some(JobSucceeded) {
      assert api.pushJob.value.JobActive?;
      return false, false;
    }
    team.consolidatedBranch := env.branch.value;
    return true, false;
  }

  /** Sends to each target in turn and records the outcome, whatever it is. */
  method ExecuteDelivery(api: ApiServer, team: AgentTeam, sends: seq<bool>, now: int)
    requires team.spec.lifecycle.Some?
    modifies api`sent, team`delivery
    ensures api.sent == old(api.sent) + team.spec.lifecycle.value.delivery
    ensures team.delivery == old(team.delivery) + Deliveries(team.spec.lifecycle.value.delivery, sends, now)
  {
    var targets := team.spec.lifecycle.value.delivery;
    for i := 0 to |targets|
      invariant api.sent == old(api.sent) + targets[..i]
      invariant team.delivery == old(team.delivery) + Deliveries(targets, sends, now)[..i]
    {
      api.sent := api.sent + [targets[i]];
      var success := i < |sends| && sends[i];
      team.delivery := team.delivery + [DeliveryStatus(targets[i].kind, targets[i].address, now, success)];
    }
  }

  /** The end of a Running reconcile: failure, finalization and completion, or saving what changed. */
  method Finish(api: ApiServer, team: AgentTeam, env: Env, now: int) returns (err: bool)
    modifies api`pushJob, api`stored, api`writesLeft, api`sent, team
    ensures Live(api, team, err) == Conclude(team.spec, old(Live(api, team, false)), env, now)
    ensures api.stored == if err then old(api.stored) else team.View()
  {
    hide AnyAgentFailed, AllAgentsSucceeded, RunFinalization, Deliveries, Commit;
    var allDone, anyFailed := AllPodsComplete(api, team);
    if anyFailed {
      team.phase := Failed;
      err := api.UpdateStatus(team);
      return;
    }
    if allDone {
      var ready, failed := Finalize(api, team, env);
      if failed {
        team.phase := Failed;
        err := api.UpdateStatus(team);
        return;
      }
      if ready {
        if team.spec.lifecycle.Some? && team.spec.lifecycle.value.onComplete == "deliver" {
          ExecuteDelivery(api, team, env.sends, now);
        }
        team.phase := Completed;
      }
    }
    err := api.UpdateStatus(team);
  }

  // ---- Phases ----

  method ReconcilePendingTeam(api: ApiServer, team: AgentTeam, now: int) returns (err: bool)
    modifies api`initJob, api`stored, api`writesLeft, team`phase, team`startedAt
    ensures Live(api, team, err) == ReconcilePending(team.spec, old(Live(api, team, false)), now)
    ensures api.stored == if err then old(api.stored) else team.View()
  {
    if team.spec.hasRepository && api.initJob.None? {
      if api.writesLeft == 0 {
        return true;
      }
      api.initJob, api.writesLeft := Some(JobActive), api.writesLeft - 1;
    }
    team.phase, team.startedAt := Initializing, Some(now);
    err := api.UpdateStatus(team);
  }

  method DeployAgents(api: ApiServer, team: AgentTeam, now: int) returns (err: bool)
    requires team.annotations == api.granted
    modifies api`pods, api`writesLeft, api`births, api`stored, team`teammates, team`phase
    ensures Live(api, team, err) == Deploy(team.spec, old(Live(api, team, false)), now)
    ensures api.stored == if err then old(api.stored) else team.View()
  {
    hide FirstSpawn;
    err := EnsureAgentPod(api, team, LEAD, [], now);
    if err {
      return;
    }
    ghost var start := Live(api, team, false);
    for i := 0 to |team.spec.teammates|
      modifies api`pods, api`writesLeft, api`births, team`teammates
      invariant Live(api, team, false) == FirstSpawns(team.spec, start, i, now)
    {
      err := SpawnFirst(api, team, team.spec.teammates[i], now);
      if err {
        FirstStoppedStays(team.spec, start, i + 1, |team.spec.teammates|, now);
        return;
      }
    }
    team.phase := Running;
    err := api.UpdateStatus(team);
  }

  method ReconcileInitializingTeam(api: ApiServer, team: AgentTeam, now: int) returns (err: bool)
    requires team.annotations == api.granted && team.View() == api.stored
    modifies api`pods, api`writesLeft, api`births, api`stored, team`teammates, team`phase
    ensures Live(api, team, err) == ReconcileInitializing(team.spec, old(Live(api, team, false)), now)
    ensures api.stored == if err then old(api.stored) else team.View()
  {
    hide Deploy, IsTimedOut;
    var late := CheckTimedOut(team, now);
    if late {
      team.phase := TimedOut;
      err := api.UpdateStatus(team);
      return;
    }
    if team.spec.hasRepository {
      if api.initJob == Some(JobFailed) {
        team.phase := Failed;
        err := api.UpdateStatus(team);
        return;
      }
      if api.initJob != Some(JobSucceeded) {
        return false;
      }
    }
    err := DeployAgents(api, team, now);
  }

  /** Deletes the team's pods, then records why it was stopped. */
  method Stop(api: ApiServer, team: AgentTeam, env: Env, reason: Phase) returns (err: bool)
    modifies api`pods, api`writesLeft, api`stored, team`phase
    ensures Live(api, team, err) == Halt(team.spec, old(Live(api, team, false)), env, reason)
    ensures api.stored == if err then old(api.stored) else team.View()
  {
    hide DeletePods;
    err := TerminateAll(api, team, env.order);
    if err {
      return;
    }
    team.phase := reason;
    err := api.UpdateStatus(team);
  }

  /** Status sync as the reconciler does it: cost, pods, then the pipeline. */
  method SyncStatus(api: ApiServer, team: AgentTeam, now: int)
    requires team.annotations == api.granted
    modifies team
    ensures Live(api, team, false) == Observe(team.spec, old(Live(api, team, false)), now)
  {
    hide EstimatedCost, SyncedEntries, ReadyCount, RecordSucceeded, UpdatedPipeline;
    var cost := EstimateCost(team, now);
    team.estimatedCost := cost;
    team.SyncPodStatuses(api.pods, now);
    team.UpdatePipelineStatus(now);
  }

  method SuperviseTeam(api: ApiServer, team: AgentTeam, env: Env, now: int) returns (err: bool)
    requires team.annotations == api.granted
    modifies api`pods, api`pushJob, api`writesLeft, api`births, api`stored, api`sent, team
    ensures Live(api, team, err) == Supervise(team.spec, old(Live(api, team, false)), env, now)
    ensures api.stored == if err then old(api.stored) else team.View()
  {
    hide Observe, Respawns, LateSpawns, Conclude;
    SyncStatus(api, team, now);
    var fatal;
    fatal, err := HandleTeammateFailures(api, team, now);
    if err {
      return;
    }
    if fatal != "" {
      team.phase := Failed;
      err := api.UpdateStatus(team);
      return;
    }
    err := SpawnUnblocked(api, team, now);
    if err {
      return;
    }
    err := Finish(api, team, env, now);
  }

  method ReconcileRunningTeam(api: ApiServer, team: AgentTeam, env: Env, now: int) returns (err: bool)
    requires team.annotations == api.granted
    modifies api`pods, api`pushJob, api`writesLeft, api`births, api`stored, api`sent, team
    ensures Live(api, team, err) == ReconcileRunning(team.spec, old(Live(api, team, false)), env, now)
    ensures api.stored == if err then old(api.stored) else team.View()
  {
    hide Halt, Supervise, IsTimedOut, IsBudgetExceeded, EstimatedCost;
    var late := CheckTimedOut(team, now);
    if late {
      err := Stop(api, team, env, TimedOut);
      return;
    }
    var over := CheckBudgetExceeded(team, now);
    if over {
      var cost := EstimateCost(team, now);
      team.estimatedCost := cost;
      err := Stop(api, team, env, BudgetExceeded);
      return;
    }
    err := SuperviseTeam(api, team, env, now);
  }

  method ReconcileTerminalTeam(api: ApiServer, team: AgentTeam, env: Env, now: int) returns (err: bool)
    requires team.View() == api.stored
    modifies api`pods, api`writesLeft, api`stored, team`completedAt
    ensures Live(api, team, err) == ReconcileTerminal(team.spec, old(Live(api, team, false)), env, now)
    ensures api.stored == if err then old(api.stored) else team.View()
  {
    hide DeletePods;
    err := TerminateAll(api, team, env.order);
    if err || team.completedAt.Some? {
      return;
    }
    team.completedAt := Some(now);
    err := api.UpdateStatus(team);
  }

  /**
   One reconcile: read the team, dispatch on its phase. The server ends as the reconcile step of a run says: the stored
   status changes only when no call failed, the rest of the cluster in either case.
   */
  method ReconcileTeam(spec: TeamSpec, api: ApiServer, env: Env, now: int, ghost aborts: nat) returns (err: bool)
    requires api.writesLeft == env.fuel
    modifies api
    ensures System(api.View(), api.stored, now, if err then aborts + 1 else aborts) ==
      Next(spec, old(System(api.View(), api.stored, now, aborts)), Reconciles(env))
  {
    hide ReconcilePending, ReconcileInitializing, ReconcileRunning, ReconcileTerminal;
    var team := new AgentTeam(spec, api.granted, api.stored);
    match team.phase {
      case Unset => err := ReconcilePendingTeam(api, team, now);
      case Pending => err := ReconcilePendingTeam(api, team, now);
      case Initializing => err := ReconcileInitializingTeam(api, team, now);
      case Running => err := ReconcileRunningTeam(api, team, env, now);
      case OtherPhase(_) =>
        team.phase := Pending;
        err := api.UpdateStatus(team);
      case _ => err := ReconcileTerminalTeam(api, team, env, now);
    }
  }
}
