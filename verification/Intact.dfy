/** While a team is neither past its deadline nor over budget, no Succeeded pod and no lead pod is ever removed. */
module Intactness {
  import opened TeamSpecs
  import opened TeamStatuses
  import opened TeamReconcile
  import opened TeamRuns
  import opened LoopRules
  import opened Rosters
  import opened Frames
  import opened Verdicts
  import Budget
  import DependencySafety
  import Lifecycles

  /** The next Running reconcile will stop the team. */
  ghost predicate Doomed(spec: TeamSpec, st: Status, now: int) { IsTimedOut(spec, st, now) || IsBudgetExceeded(spec, st, now) }

  ghost predicate Intact(cl: Cluster) { forall a :: a in cl.succeeded ==> Succeeded(cl.pods, a) }

  ghost predicate Alive(spec: TeamSpec, s: System) {
    s.st.phase in [Unset, Initializing] || (s.st.phase == Running && !Doomed(spec, s.st, s.now))
  }

  ghost predicate IntactInv(spec: TeamSpec, s: System) {
    && (Alive(spec, s) ==> Intact(s.cl))
    && (Alive(spec, s) && s.st.phase == Running ==> LEAD in s.cl.pods)
  }

  lemma CostKeepsGrowing(spec: TeamSpec, st: Status, now: int, later: int)
    requires now <= later
    ensures EstimatedCost(spec, st, now) <= EstimatedCost(spec, st, later)
  {
    if st.startedAt.Some? {
      hide Budget.TeamCost;
      assert (now - st.startedAt.value) / SECOND <= (later - st.startedAt.value) / SECOND;
      Budget.TeamCostMonotone(Models(spec), (now - st.startedAt.value) / SECOND, (later - st.startedAt.value) / SECOND);
    }
  }

  lemma DoomIsForever(spec: TeamSpec, st: Status, now: int, later: int)
    requires now <= later && Doomed(spec, st, now)
    ensures Doomed(spec, st, later)
  {
    hide EstimatedCost;
    CostKeepsGrowing(spec, st, now, later);
  }

  lemma RespawnsKeepLead(spec: TeamSpec, m: Mem, now: int)
    requires WellFormed(spec) && m.ok
    ensures SamePod(m.cl.pods, Respawns(spec, m, |spec.teammates|, now).m.cl.pods, LEAD)
  {
    var P := (k: int, x: Mem) => SamePod(m.cl.pods, x.cl.pods, LEAD);
    var Q := (c: Checked) => SamePod(m.cl.pods, c.m.cl.pods, LEAD);
    forall k, x: Mem | 0 <= k < |spec.teammates| && x.ok && P(k, x) ensures RespawnPass(spec, now, P, Q, k, x) {
      assert spec.teammates[k].name != LEAD;
    }
    RespawnsRule(spec, m, |spec.teammates|, now, P, Q);
  }

  /** Succeeded pods, and the lead's, outlive the reconcile. */
  ghost predicate Spares(before: Pods, after: Pods) {
    && (forall a :: Succeeded(before, a) ==> Succeeded(after, a))
    && (LEAD in before ==> LEAD in after)
  }

  lemma SuperviseSpares(spec: TeamSpec, m: Mem, env: Env, now: int)
    requires WellFormed(spec) && m.ok && DistinctEntries(m.st.teammates)
    ensures Spares(m.cl.pods, Supervise(spec, m, env, now).cl.pods)
  {
    hide Observe, Respawns, LateSpawns, AnyAgentFailed, AllAgentsSucceeded, DistinctEntries;
    var o := Observe(spec, m, now);
    ObserveFacts(spec, m, now);
    var c := Respawns(spec, o, |spec.teammates|, now);
    RespawnsReplace(spec, o, now);
    RespawnsKeepLead(spec, o, now);
    if GoesOn(c) {
      LateSpawnsAddPods(spec, c.m, now);
    }
  }

  lemma DeploySpares(spec: TeamSpec, m: Mem, now: int)
    requires m.ok
    ensures Spares(m.cl.pods, Deploy(spec, m, now).cl.pods)
    ensures Deploy(spec, m, now).ok ==> LEAD in Deploy(spec, m, now).cl.pods
  {
    var m1 := EnsureAgentPod(spec, m, LEAD, [], now);
    if m1.ok {
      FirstSpawnsAddPods(spec, m1, now);
    }
  }

  lemma RunningKeeps(spec: TeamSpec, s: System, env: Env)
    requires WellFormed(spec) && IntactInv(spec, s) && Lifecycles.LifeInv(spec, s) && s.st.phase == Running
    requires Outcome(spec, s, env).cl.succeeded == s.cl.succeeded
    ensures IntactInv(spec, Next(spec, s, Reconciles(env)))
  {
    hide Supervise, Halt, IsTimedOut, IsBudgetExceeded, DistinctEntries, Lifecycles.OutcomeInv, Lifecycles.AllInTime;
    var m := Begin(s, env);
    var r := Outcome(spec, s, env);
    if Doomed(spec, s.st, s.now) {
      Lifecycles.HaltWrites(spec, m, env, TimedOut);
      Lifecycles.HaltWrites(spec, m.(st := m.st.(estimatedCost := EstimatedCost(spec, m.st, s.now))), env, BudgetExceeded);
    } else {
      SuperviseSpares(spec, m, env, s.now);
      if r.ok {
        Lifecycles.SuperviseWrites(spec, m, env, s.now);
        SameStartSameDoom(spec, s.st, r.st, s.now);
      }
    }
  }

  lemma ReconcilesKeeps(spec: TeamSpec, s: System, env: Env)
    requires WellFormed(spec) && IntactInv(spec, s) && Lifecycles.LifeInv(spec, s) && DependencySafety.ClusterInv(spec, s.cl)
    ensures IntactInv(spec, Next(spec, s, Reconciles(env)))
  {
    hide ReconcileRunning, Deploy, TerminateAllPods, IsTimedOut, IsBudgetExceeded, DistinctEntries,
      DependencySafety.ClusterInv, Lifecycles.OutcomeInv, Lifecycles.AllInTime;
    var m := Begin(s, env);
    GrowsOnly(spec, m, env, s.now);
    if s.st.phase == Running {
      RunningKeeps(spec, s, env);
    } else if s.st.phase == Initializing {
      DeploySpares(spec, m, s.now);
    } else if Terminal(s.st.phase) {
      Lifecycles.TerminateWrites(spec, m, env);
    }
  }

  lemma GrowsOnly(spec: TeamSpec, m: Mem, env: Env, now: int)
    requires WellFormed(spec) && m.ok && DependencySafety.ClusterInv(spec, m.cl)
    ensures Reconcile(spec, m, env, now).cl.succeeded == m.cl.succeeded
  {
    DependencySafety.ReconcileKeeps(spec, m, env, now);
  }

  lemma SameStartSameDoom(spec: TeamSpec, a: Status, b: Status, now: int)
    requires a.startedAt == b.startedAt
    ensures Doomed(spec, a, now) <==> Doomed(spec, b, now)
  {
  }

  lemma NextKeeps(spec: TeamSpec, s: System, step: Step)
    requires WellFormed(spec) && IntactInv(spec, s) && Lifecycles.LifeInv(spec, s) && DependencySafety.ClusterInv(spec, s.cl)
    ensures IntactInv(spec, Next(spec, s, step))
  {
    hide IsTimedOut, IsBudgetExceeded, DependencySafety.ClusterInv, Lifecycles.LifeInv, Reconcile;
    if step.Reconciles? {
      ReconcilesKeeps(spec, s, step.env);
    } else if step.Tick? && Doomed(spec, s.st, s.now) {
      DoomIsForever(spec, s.st, s.now, s.now + step.elapsed);
    }
  }

  lemma {:induction false} RunKeeps(spec: TeamSpec, steps: seq<Step>)
    requires WellFormed(spec)
    ensures IntactInv(spec, Run(spec, steps))
  {
    if steps != [] {
      var n := |steps| - 1;
      RunKeeps(spec, steps[..n]);
      Lifecycles.RunKeeps(spec, steps[..n]);
      DependencySafety.RunKeeps(spec, steps[..n]);
      NextKeeps(spec, Run(spec, steps[..n]), steps[n]);
    }
  }

  /** In a live team whatever an existing or once existing teammate waits for is Succeeded right now. */
  lemma BornDependenciesStand(spec: TeamSpec, s: System, agent: string, d: string)
    requires DependencySafety.ClusterInv(spec, s.cl) && IntactInv(spec, s) && Alive(spec, s)
    requires DependencySafety.BornBefore(s.cl.births, |s.cl.births|, agent) && WaitsFor(spec, agent, d)
    ensures Succeeded(s.cl.pods, d)
  {
    DependencySafety.BornIsCleared(spec, s.cl, agent);
  }
}
