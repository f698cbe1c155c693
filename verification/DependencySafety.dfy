/** No teammate pod is ever created before everything it depends on has Succeeded and its gates were granted. */
module DependencySafety {
  import opened TeamSpecs
  import opened TeamStatuses
  import opened TeamReconcile
  import opened TeamRuns
  import opened LoopRules

  ghost predicate BornBefore(births: seq<Birth>, i: nat, agent: string)
    requires i <= |births|
  {
    exists j :: 0 <= j < i && births[j].agent == agent
  }

  /** The creation itself was safe: direct dependencies had Succeeded, both gates had been granted. */
  ghost predicate SafeBirth(spec: TeamSpec, b: Birth) {
    && IsAgent(spec, b.agent)
    && (forall d :: WaitsFor(spec, b.agent, d) ==> d in b.succeeded)
    && (b.agent != LEAD ==> GatesOpen(spec, b.granted, b.agent))
  }

  ghost predicate HistoryOk(spec: TeamSpec, cl: Cluster, i: nat)
    requires i < |cl.births|
  {
    && SafeBirth(spec, cl.births[i])
    && cl.births[i].succeeded <= cl.succeeded
    && cl.births[i].granted <= cl.everGranted
    && (forall d :: d in cl.births[i].succeeded ==> BornBefore(cl.births, i, d))
    && (forall j :: 0 <= j < i ==> cl.births[j].succeeded <= cl.births[i].succeeded)
  }

  ghost predicate ClusterInv(spec: TeamSpec, cl: Cluster) {
    && (forall a :: a in cl.pods ==> IsAgent(spec, a) && BornBefore(cl.births, |cl.births|, a))
    && (forall a :: Succeeded(cl.pods, a) ==> a in cl.succeeded)
    && (forall a :: a in cl.succeeded ==> BornBefore(cl.births, |cl.births|, a))
    && cl.granted <= cl.everGranted
    && (forall i :: 0 <= i < |cl.births| ==> HistoryOk(spec, cl, i))
  }

  /** The writes of a reconcile change neither approvals nor which agents ever Succeeded, and only append to history. */
  ghost predicate Grows(before: Cluster, after: Cluster) {
    && after.granted == before.granted
    && after.everGranted == before.everGranted
    && after.succeeded == before.succeeded
    && before.births <= after.births
  }

  lemma WaitsForDependencies(spec: TeamSpec, k: nat, d: string)
    requires WellFormed(spec) && k < |spec.teammates|
    ensures WaitsFor(spec, spec.teammates[k].name, d) <==> d in EffectiveDependencies(spec, spec.teammates[k])
  {
  }

  lemma BornStaysBorn(births: seq<Birth>, more: seq<Birth>, i: nat, agent: string)
    requires i <= |births| && births <= more && BornBefore(births, i, agent)
    ensures BornBefore(more, i, agent) && BornBefore(more, |more|, agent)
  {
  }

  lemma HistoryStays(spec: TeamSpec, before: Cluster, after: Cluster, i: nat)
    requires i < |before.births| && HistoryOk(spec, before, i)
    requires before.births <= after.births && before.succeeded <= after.succeeded && before.everGranted <= after.everGranted
    ensures HistoryOk(spec, after, i)
  {
  }

  lemma EnsureKeeps(spec: TeamSpec, m: Mem, agent: string, inputs: seq<InputSpec>, now: int)
    requires ClusterInv(spec, m.cl)
    requires IsAgent(spec, agent)
    requires forall d :: WaitsFor(spec, agent, d) ==> d in m.cl.succeeded
    requires agent != LEAD ==> GatesOpen(spec, m.cl.everGranted, agent)
    ensures ClusterInv(spec, EnsureAgentPod(spec, m, agent, inputs, now).cl)
    ensures Grows(m.cl, EnsureAgentPod(spec, m, agent, inputs, now).cl)
  {
    hide WaitsFor, GatesOpen, IsAgent, StagedInputs;
    var cl := EnsureAgentPod(spec, m, agent, inputs, now).cl;
    if cl != m.cl {
      var n := |m.cl.births|;
      assert cl.births[..n] == m.cl.births && cl.births[n].agent == agent;
      forall i | 0 <= i < |cl.births| ensures HistoryOk(spec, cl, i) {
        if i < n {
          HistoryStays(spec, m.cl, cl, i);
        } else {
          forall d | d in cl.births[i].succeeded ensures BornBefore(cl.births, i, d) {
            BornStaysBorn(m.cl.births, cl.births, n, d);
          }
          forall j | 0 <= j < i ensures cl.births[j].succeeded <= cl.births[i].succeeded {
            assert HistoryOk(spec, m.cl, j);
          }
        }
      }
      forall a | a in cl.pods || a in cl.succeeded ensures BornBefore(cl.births, |cl.births|, a) {
        if a != agent {
          BornStaysBorn(m.cl.births, cl.births, n, a);
        }
      }
    }
  }

  /** Everything a born agent waits for has Succeeded by now, so its pod may be made again without asking. */
  lemma BornIsCleared(spec: TeamSpec, cl: Cluster, agent: string)
    requires ClusterInv(spec, cl) && BornBefore(cl.births, |cl.births|, agent)
    ensures forall d :: WaitsFor(spec, agent, d) ==> d in cl.succeeded
    ensures agent != LEAD ==> GatesOpen(spec, cl.everGranted, agent)
  {
    var j :| 0 <= j < |cl.births| && cl.births[j].agent == agent;
    assert HistoryOk(spec, cl, j);
  }

  lemma CheckedMeansCleared(spec: TeamSpec, cl: Cluster, k: nat)
    requires WellFormed(spec) && ClusterInv(spec, cl) && k < |spec.teammates|
    requires DependenciesMet(cl.pods, EffectiveDependencies(spec, spec.teammates[k]))
    requires HeldAt(spec, cl.granted, spec.teammates[k].name) == ""
    ensures forall d :: WaitsFor(spec, spec.teammates[k].name, d) ==> d in cl.succeeded
    ensures GatesOpen(spec, cl.everGranted, spec.teammates[k].name)
  {
    hide HeldAt, StageAsks, SpawnAsks;
    HeldAtMeansClosed(spec, cl.granted, spec.teammates[k].name);
  }

  lemma FirstSpawnKeeps(spec: TeamSpec, m: Mem, k: nat, now: int)
    requires WellFormed(spec) && ClusterInv(spec, m.cl) && k < |spec.teammates|
    ensures ClusterInv(spec, FirstSpawn(spec, m, spec.teammates[k], now).cl)
    ensures Grows(m.cl, FirstSpawn(spec, m, spec.teammates[k], now).cl)
  {
    var tm := spec.teammates[k];
    if DependenciesMet(m.cl.pods, EffectiveDependencies(spec, tm)) && HeldAt(spec, m.cl.granted, tm.name) == "" {
      CheckedMeansCleared(spec, m.cl, k);
      EnsureKeeps(spec, m, tm.name, tm.inputs, now);
    }
  }

  lemma FirstSpawnsKeep(spec: TeamSpec, m: Mem, n: nat, now: int)
    requires WellFormed(spec) && ClusterInv(spec, m.cl) && n <= |spec.teammates| && m.ok
    ensures ClusterInv(spec, FirstSpawns(spec, m, n, now).cl) && Grows(m.cl, FirstSpawns(spec, m, n, now).cl)
  {
    var P := (k: int, x: Mem) => ClusterInv(spec, x.cl) && Grows(m.cl, x.cl);
    var Q := (x: Mem) => P(0, x);
    forall k, x: Mem | 0 <= k < |spec.teammates| && x.ok && P(k, x)
      ensures FirstSpawnPass(spec, now, P, Q, k, x)
    {
      FirstSpawnKeeps(spec, x, k, now);
    }
    FirstSpawnsRule(spec, m, n, now, P, Q);
  }

  lemma DeleteKeeps(spec: TeamSpec, m: Mem, agent: string)
    requires ClusterInv(spec, m.cl)
    ensures ClusterInv(spec, DeletePod(m, agent).cl) && Grows(m.cl, DeletePod(m, agent).cl)
  {
    var cl := DeletePod(m, agent).cl;
    forall i | 0 <= i < |cl.births| ensures HistoryOk(spec, cl, i) {
      HistoryStays(spec, m.cl, cl, i);
    }
  }

  lemma RespawnKeeps(spec: TeamSpec, m: Mem, k: nat, now: int)
    requires WellFormed(spec) && ClusterInv(spec, m.cl) && k < |spec.teammates|
    ensures ClusterInv(spec, Respawn(spec, m, spec.teammates[k], now).m.cl)
    ensures Grows(m.cl, Respawn(spec, m, spec.teammates[k], now).m.cl)
  {
    var tm := spec.teammates[k];
    if HasFailed(m.cl.pods, tm.name) && RestartCount(m.st.teammates, tm.name) < MaxRestarts(spec) {
      var m1 := DeletePod(m, tm.name);
      DeleteKeeps(spec, m, tm.name);
      if m1.ok {
        BornIsCleared(spec, m.cl, tm.name);
        var entries := SetRestartCount(m1.st.teammates, tm.name, RestartCount(m.st.teammates, tm.name) + 1);
        EnsureKeeps(spec, m1.(st := m1.st.(teammates := entries)), tm.name, tm.inputs, now);
      }
    }
  }

  lemma RespawnsKeep(spec: TeamSpec, m: Mem, n: nat, now: int)
    requires WellFormed(spec) && ClusterInv(spec, m.cl) && n <= |spec.teammates| && m.ok
    ensures ClusterInv(spec, Respawns(spec, m, n, now).m.cl) && Grows(m.cl, Respawns(spec, m, n, now).m.cl)
  {
    var P := (k: int, x: Mem) => ClusterInv(spec, x.cl) && Grows(m.cl, x.cl);
    var Q := (c: Checked) => P(0, c.m);
    forall k, x: Mem | 0 <= k < |spec.teammates| && x.ok && P(k, x)
      ensures RespawnPass(spec, now, P, Q, k, x)
    {
      RespawnKeeps(spec, x, k, now);
    }
    RespawnsRule(spec, m, n, now, P, Q);
  }

  lemma LateSpawnKeeps(spec: TeamSpec, m: Mem, k: nat, now: int)
    requires WellFormed(spec) && ClusterInv(spec, m.cl) && k < |spec.teammates|
    ensures ClusterInv(spec, LateSpawn(spec, m, spec.teammates[k], now).cl)
    ensures Grows(m.cl, LateSpawn(spec, m, spec.teammates[k], now).cl)
  {
    var tm := spec.teammates[k];
    if tm.name !in m.cl.pods && DependenciesMet(m.cl.pods, EffectiveDependencies(spec, tm)) && HeldAt(spec, m.cl.granted, tm.name) == "" {
      CheckedMeansCleared(spec, m.cl, k);
      EnsureKeeps(spec, m.(st := m.st.(teammates := ClearPendingApproval(m.st.teammates, tm.name))), tm.name, tm.inputs, now);
    }
  }

  lemma LateSpawnsKeep(spec: TeamSpec, m: Mem, n: nat, now: int)
    requires WellFormed(spec) && ClusterInv(spec, m.cl) && n <= |spec.teammates| && m.ok
    ensures ClusterInv(spec, LateSpawns(spec, m, n, now).cl) && Grows(m.cl, LateSpawns(spec, m, n, now).cl)
  {
    var P := (k: int, x: Mem) => ClusterInv(spec, x.cl) && Grows(m.cl, x.cl);
    var Q := (x: Mem) => P(0, x);
    forall k, x: Mem | 0 <= k < |spec.teammates| && x.ok && P(k, x)
      ensures LateSpawnPass(spec, now, P, Q, k, x)
    {
      LateSpawnKeeps(spec, x, k, now);
    }
    LateSpawnsRule(spec, m, n, now, P, Q);
  }

  lemma DeletePodsKeep(spec: TeamSpec, m: Mem, names: seq<string>)
    requires ClusterInv(spec, m.cl)
    ensures ClusterInv(spec, DeletePods(m, names).cl) && Grows(m.cl, DeletePods(m, names).cl)
  {
    var P := (x: Mem) => ClusterInv(spec, x.cl) && Grows(m.cl, x.cl);
    forall x: Mem, a | x.ok && P(x) && a in x.cl.pods ensures P(DeletePod(x, a)) {
      DeleteKeeps(spec, x, a);
    }
    DeletePodsRule(m, names, P);
  }

  lemma JobChangeKeeps(spec: TeamSpec, before: Cluster, after: Cluster)
    requires ClusterInv(spec, before)
    requires after == before.(initJob := after.initJob, pushJob := after.pushJob, sent := after.sent)
    ensures ClusterInv(spec, after) && Grows(before, after)
  {
    forall i | 0 <= i < |after.births| ensures HistoryOk(spec, after, i) {
      HistoryStays(spec, before, after, i);
    }
  }

  lemma ConcludeKeeps(spec: TeamSpec, m: Mem, env: Env, now: int)
    requires ClusterInv(spec, m.cl)
    ensures ClusterInv(spec, Conclude(spec, m, env, now).cl) && Grows(m.cl, Conclude(spec, m, env, now).cl)
  {
    hide AnyAgentFailed, AllAgentsSucceeded, ClusterInv, Grows, Deliveries;
    var cl := Conclude(spec, m, env, now).cl;
    assert cl == m.cl.(pushJob := cl.pushJob, sent := cl.sent);
    JobChangeKeeps(spec, m.cl, cl);
  }

  lemma SuperviseKeeps(spec: TeamSpec, m: Mem, env: Env, now: int)
    requires WellFormed(spec) && ClusterInv(spec, m.cl) && m.ok
    ensures ClusterInv(spec, Supervise(spec, m, env, now).cl) && Grows(m.cl, Supervise(spec, m, env, now).cl)
  {
    var n := |spec.teammates|;
    var m1 := Observe(spec, m, now);
    assert m1.cl == m.cl;
    RespawnsKeep(spec, m1, n, now);
    var checked := Respawns(spec, m1, n, now);
    if checked.m.ok && checked.fatal == "" {
      LateSpawnsKeep(spec, checked.m, n, now);
      var m3 := LateSpawns(spec, checked.m, n, now);
      if m3.ok {
        ConcludeKeeps(spec, m3, env, now);
      }
    }
  }

  lemma HaltKeeps(spec: TeamSpec, m: Mem, env: Env, reason: Phase)
    requires ClusterInv(spec, m.cl)
    ensures ClusterInv(spec, Halt(spec, m, env, reason).cl) && Grows(m.cl, Halt(spec, m, env, reason).cl)
  {
    DeletePodsKeep(spec, m, Listing(spec, env));
  }

  lemma DeployKeeps(spec: TeamSpec, m: Mem, now: int)
    requires WellFormed(spec) && ClusterInv(spec, m.cl) && m.ok
    ensures ClusterInv(spec, Deploy(spec, m, now).cl) && Grows(m.cl, Deploy(spec, m, now).cl)
  {
    var m1 := EnsureAgentPod(spec, m, LEAD, [], now);
    EnsureKeeps(spec, m, LEAD, [], now);
    if m1.ok {
      FirstSpawnsKeep(spec, m1, |spec.teammates|, now);
    }
  }

  lemma ReconcileKeeps(spec: TeamSpec, m: Mem, env: Env, now: int)
    requires WellFormed(spec) && ClusterInv(spec, m.cl) && m.ok
    ensures ClusterInv(spec, Reconcile(spec, m, env, now).cl) && Grows(m.cl, Reconcile(spec, m, env, now).cl)
  {
    match m.st.phase
    case Initializing => DeployKeeps(spec, m, now);
    case Running =>
      if IsTimedOut(spec, m.st, now) {
        HaltKeeps(spec, m, env, TimedOut);
      } else if IsBudgetExceeded(spec, m.st, now) {
        HaltKeeps(spec, m.(st := m.st.(estimatedCost := EstimatedCost(spec, m.st, now))), env, BudgetExceeded);
      } else {
        SuperviseKeeps(spec, m, env, now);
      }
    case OtherPhase(_) =>
    case Unset => JobChangeKeeps(spec, m.cl, ReconcilePending(spec, m, now).cl);
    case Pending => JobChangeKeeps(spec, m.cl, ReconcilePending(spec, m, now).cl);
    case _ => DeletePodsKeep(spec, m, Listing(spec, env));
  }

  lemma MovePodKeeps(spec: TeamSpec, cl: Cluster, agent: string, phase: PodPhase)
    requires ClusterInv(spec, cl)
    ensures ClusterInv(spec, MovePod(cl, agent, phase))
  {
    var after := MovePod(cl, agent, phase);
    forall i | 0 <= i < |after.births| ensures HistoryOk(spec, after, i) {
      HistoryStays(spec, cl, after, i);
    }
  }

  lemma NextKeeps(spec: TeamSpec, s: System, step: Step)
    requires WellFormed(spec) && ClusterInv(spec, s.cl)
    ensures ClusterInv(spec, Next(spec, s, step).cl)
  {
    match step
    case Reconciles(env) => ReconcileKeeps(spec, Begin(s, env), env, s.now);
    case PodMoves(a, p) => MovePodKeeps(spec, s.cl, a, p);
    case Tick(_) =>
    case InitJobMoves(p) => JobChangeKeeps(spec, s.cl, Next(spec, s, step).cl);
    case PushJobMoves(p) => JobChangeKeeps(spec, s.cl, Next(spec, s, step).cl);
    case Approve(_) => ApprovalsKeep(spec, s.cl, Next(spec, s, step).cl);
    case Revoke(_) => ApprovalsKeep(spec, s.cl, Next(spec, s, step).cl);
  }

  lemma ApprovalsKeep(spec: TeamSpec, before: Cluster, after: Cluster)
    requires ClusterInv(spec, before)
    requires after == before.(granted := after.granted, everGranted := after.everGranted)
    requires before.everGranted <= after.everGranted && after.granted <= after.everGranted
    ensures ClusterInv(spec, after)
  {
    forall i | 0 <= i < |after.births| ensures HistoryOk(spec, after, i) {
      HistoryStays(spec, before, after, i);
    }
  }

  lemma {:induction false} RunKeeps(spec: TeamSpec, steps: seq<Step>)
    requires WellFormed(spec)
    ensures ClusterInv(spec, Run(spec, steps).cl)
  {
    if steps != [] {
      RunKeeps(spec, steps[..|steps| - 1]);
      NextKeeps(spec, Run(spec, steps[..|steps| - 1]), steps[|steps| - 1]);
    }
  }

  // ---- Transitive closure ----

  /** Each agent of the path waits for the next. */
  ghost predicate DependencyPath(spec: TeamSpec, path: seq<string>) {
    forall k :: 0 <= k < |path| - 1 ==> WaitsFor(spec, path[k], path[k + 1])
  }

  lemma DependencyPathTail(spec: TeamSpec, path: seq<string>)
    requires path != [] && DependencyPath(spec, path)
    ensures DependencyPath(spec, path[1..])
  {
  }

  lemma {:induction false} ClosureSucceeded(spec: TeamSpec, cl: Cluster, i: nat, path: seq<string>)
    requires ClusterInv(spec, cl) && i < |cl.births|
    requires |path| >= 2 && path[0] == cl.births[i].agent && DependencyPath(spec, path)
    ensures path[|path| - 1] in cl.births[i].succeeded
    decreases |path|
  {
    assert HistoryOk(spec, cl, i);
    assert WaitsFor(spec, path[0], path[0 + 1]);
    if |path| > 2 {
      var j :| 0 <= j < i && cl.births[j].agent == path[1];
      DependencyPathTail(spec, path);
      ClosureSucceeded(spec, cl, j, path[1..]);
    }
  }

  /**
   Over every run, aborted reconciles included: at each pod creation everything reachable along dependencies had
   already Succeeded, and the teammate's stage gate and spawn gate had been granted then or earlier.
   */
  lemma CreationIsSafe(spec: TeamSpec, steps: seq<Step>, i: nat, path: seq<string>)
    requires WellFormed(spec) && i < |Run(spec, steps).cl.births|
    requires path != [] && path[0] == Run(spec, steps).cl.births[i].agent && DependencyPath(spec, path)
    ensures |path| >= 2 ==> path[|path| - 1] in Run(spec, steps).cl.births[i].succeeded
    ensures path[0] != LEAD ==> GatesOpen(spec, Run(spec, steps).cl.births[i].granted, path[0])
  {
    RunKeeps(spec, steps);
    if |path| >= 2 {
      ClosureSucceeded(spec, Run(spec, steps).cl, i, path);
    }
    assert HistoryOk(spec, Run(spec, steps).cl, i);
  }

  // ---- Pipelines ----

  /**
   The schema demands at least one teammate of each stage. That stage names are distinct and that every listed teammate is
   declared and in no other stage is what the API documents but nothing checks: assumptions.
   */
  ghost predicate WellFormedPipeline(spec: TeamSpec) {
    var st := Stages(spec);
    && (forall i, j :: 0 <= i < j < |st| ==> st[i].name != st[j].name)
    && (forall i :: 0 <= i < |st| ==> st[i].teammates != [])
    && (forall i, n :: 0 <= i < |st| && n in st[i].teammates ==> Declared(spec, n))
    && (forall i, j, n :: 0 <= i < j < |st| && n in st[i].teammates ==> n !in st[j].teammates)
  }

  /** Stage i of the path lists stage i + 1 as upstream. */
  ghost predicate StagePath(spec: TeamSpec, path: seq<nat>) {
    && (forall k :: 0 <= k < |path| ==> path[k] < |Stages(spec)|)
    && (forall k :: 0 <= k < |path| - 1 ==> Stages(spec)[path[k + 1]].name in Stages(spec)[path[k]].dependsOn)
  }

  lemma StagePathTail(spec: TeamSpec, path: seq<nat>)
    requires path != [] && StagePath(spec, path)
    ensures StagePath(spec, path[1..])
  {
  }

  lemma StageEdge(spec: TeamSpec, i: nat, j: nat, name: string, d: string)
    requires WellFormed(spec) && WellFormedPipeline(spec) && i < |Stages(spec)| && j < |Stages(spec)|
    requires name in Stages(spec)[i].teammates && d in Stages(spec)[j].teammates
    requires Stages(spec)[j].name in Stages(spec)[i].dependsOn
    ensures WaitsFor(spec, name, d)
  {
    assert Declared(spec, name) && Declared(spec, d);
    assert FirstToList(spec, i, name) && LastOfName(Stages(spec), j) && ListedUpstream(spec, name, d);
    PipelineEdge(spec, name, d);
  }

  lemma PipelineEdge(spec: TeamSpec, name: string, d: string)
    requires WellFormed(spec) && spec.pipeline.Some? && ListedUpstream(spec, name, d)
    requires Declared(spec, name) && Declared(spec, d)
    ensures WaitsFor(spec, name, d)
  {
    var k :| 0 <= k < |spec.teammates| && spec.teammates[k].name == name;
    DependenciesMeaning(spec, spec.teammates[k]);
  }

  lemma {:induction false} StageClosureSucceeded(spec: TeamSpec, cl: Cluster, i: nat, path: seq<nat>, d: string)
    requires WellFormed(spec) && WellFormedPipeline(spec) && ClusterInv(spec, cl) && i < |cl.births|
    requires |path| >= 2 && StagePath(spec, path)
    requires cl.births[i].agent in Stages(spec)[path[0]].teammates && d in Stages(spec)[path[|path| - 1]].teammates
    ensures d in cl.births[i].succeeded
    decreases |path|
  {
    assert HistoryOk(spec, cl, i);
    assert Stages(spec)[path[0 + 1]].name in Stages(spec)[path[0]].dependsOn;
    var next := if |path| == 2 then d else Stages(spec)[path[1]].teammates[0];
    StageEdge(spec, path[0], path[1], cl.births[i].agent, next);
    if |path| > 2 {
      var j :| 0 <= j < i && cl.births[j].agent == next;
      StagePathTail(spec, path);
      StageClosureSucceeded(spec, cl, j, path[1..], d);
    }
  }

  /** In pipeline mode a pod is created only after every teammate of every transitively upstream stage has Succeeded. */
  lemma UpstreamStagesSucceeded(spec: TeamSpec, steps: seq<Step>, i: nat, path: seq<nat>, d: string)
    requires WellFormed(spec) && WellFormedPipeline(spec) && i < |Run(spec, steps).cl.births|
    requires |path| >= 2 && StagePath(spec, path)
    requires Run(spec, steps).cl.births[i].agent in Stages(spec)[path[0]].teammates
    requires d in Stages(spec)[path[|path| - 1]].teammates
    ensures d in Run(spec, steps).cl.births[i].succeeded
  {
    RunKeeps(spec, steps);
    StageClosureSucceeded(spec, Run(spec, steps).cl, i, path, d);
  }
}
