/** The start of a team over whole runs: the init Job of a team with a repository, and when its agents are deployed. */
module InitRuns {
  import opened Options
  import opened TeamSpecs
  import opened TeamStatuses
  import opened TeamReconcile
  import opened TeamRuns
  import opened Frames
  import DS = DependencySafety
  import Lifecycles

  /** With a repository the init Job is there once the team has started, and has Succeeded once a pod was made; without, never. */
  ghost predicate InitInv(spec: TeamSpec, s: System) {
    if spec.hasRepository then
      && (s.st.phase !in [Unset, Pending] ==> s.cl.initJob.Some?)
      && (s.cl.births != [] || s.st.phase == Running ==> s.cl.initJob == Some(JobSucceeded))
    else s.cl.initJob.None?
  }

  /** Once Running, a reconcile leaves the init Job alone, and once the team has ended it creates nothing. */
  lemma InitJobStays(spec: TeamSpec, s: System, env: Env)
    requires s.st.phase == Running || Terminal(s.st.phase)
    ensures Outcome(spec, s, env).cl.initJob == s.cl.initJob
    ensures s.st.phase != Running ==> Outcome(spec, s, env).cl.births == s.cl.births
  {
    hide Supervise, Halt, TerminateAllPods, IsTimedOut, IsBudgetExceeded;
    var m := Begin(s, env);
    if s.st.phase == Running {
      SuperviseTouches(spec, m, env, s.now);
      Lifecycles.HaltWrites(spec, m, env, TimedOut);
      Lifecycles.HaltWrites(spec, m.(st := m.st.(estimatedCost := EstimatedCost(spec, m.st, s.now))), env, BudgetExceeded);
    }
    Lifecycles.TerminateWrites(spec, m, env);
  }

  lemma StartsUp(spec: TeamSpec, s: System, env: Env)
    requires s.st.phase == Unset && InitInv(spec, s)
    ensures InitInv(spec, Next(spec, s, Reconciles(env)))
  {
  }

  lemma DeploysAfterInit(spec: TeamSpec, s: System, env: Env)
    requires s.st.phase == Initializing && InitInv(spec, s)
    ensures InitInv(spec, Next(spec, s, Reconciles(env)))
  {
    hide Deploy, IsTimedOut;
    DeployFrame(spec, Begin(s, env), s.now);
  }

  lemma NextKeeps(spec: TeamSpec, s: System, step: Step)
    requires WellFormed(spec) && Lifecycles.LifeInv(spec, s) && InitInv(spec, s)
    ensures InitInv(spec, Next(spec, s, step))
  {
    hide Reconcile, Lifecycles.OutcomeInv, Lifecycles.AllInTime;
    if step.Reconciles? {
      if s.st.phase == Unset {
        StartsUp(spec, s, step.env);
      } else if s.st.phase == Initializing {
        DeploysAfterInit(spec, s, step.env);
      } else {
        InitJobStays(spec, s, step.env);
        Lifecycles.PhaseStep(spec, s, step);
      }
    }
  }

  lemma {:induction false} RunKeeps(spec: TeamSpec, steps: seq<Step>)
    requires WellFormed(spec)
    ensures InitInv(spec, Run(spec, steps))
  {
    hide Next, InitInv, Lifecycles.LifeInv;
    if steps == [] {
      FreshIsFine(spec);
    } else {
      RunKeeps(spec, steps[..|steps| - 1]);
      Lifecycles.RunKeeps(spec, steps[..|steps| - 1]);
      NextKeeps(spec, Run(spec, steps[..|steps| - 1]), steps[|steps| - 1]);
    }
  }

  lemma FreshIsFine(spec: TeamSpec)
    ensures InitInv(spec, FreshSystem)
  {
  }

  /** Over every run of a team with a repository, no pod was ever created before its init Job Succeeded. */
  lemma NothingBeforeInit(spec: TeamSpec, steps: seq<Step>)
    requires WellFormed(spec) && spec.hasRepository && Run(spec, steps).cl.initJob != Some(JobSucceeded)
    ensures Run(spec, steps).cl.births == [] && Run(spec, steps).cl.pods == map[] && Run(spec, steps).st.phase != Running
  {
    hide Run, DS.HistoryOk;
    RunKeeps(spec, steps);
    DS.RunKeeps(spec, steps);
    UnbornHaveNoPods(spec, Run(spec, steps).cl);
  }

  lemma UnbornHaveNoPods(spec: TeamSpec, cl: Cluster)
    requires DS.ClusterInv(spec, cl) && cl.births == []
    ensures cl.pods == map[]
  {
    hide DS.HistoryOk;
    assert cl.pods.Keys == {};
  }

  /**
   The committed reconcile that starts a team of any run: Initializing from now on, with an init Job in place if it has a
   repository, and nothing else in the cluster.
   */
  lemma StartExactly(spec: TeamSpec, steps: seq<Step>, env: Env)
    requires WellFormed(spec) && Run(spec, steps).st.phase == Unset
    requires Run(spec, steps + [Reconciles(env)]).aborts == Run(spec, steps).aborts
    ensures var s, t := Run(spec, steps), Run(spec, steps + [Reconciles(env)]);
      && t.st == s.st.(phase := Initializing, startedAt := Some(s.now))
      && t.cl == s.cl.(initJob := t.cl.initJob)
      && t.cl.initJob == (if spec.hasRepository && s.cl.initJob.None? then Some(JobActive) else s.cl.initJob)
      && (t.cl.initJob.Some? <==> spec.hasRepository)
  {
    hide Run;
    RunKeeps(spec, steps);
    Lifecycles.RunsOn(spec, steps, Reconciles(env));
  }

  /**
   A committed Initializing reconcile of any run, within the deadline: with a repository, Failed if and only if its init Job
   Failed, and nothing changes while the Job is still going; Running, with the lead's pod there, once it Succeeded or
   without a repository.
   */
  lemma DeploymentExact(spec: TeamSpec, steps: seq<Step>, env: Env)
    requires WellFormed(spec) && Run(spec, steps).st.phase == Initializing
    requires Run(spec, steps + [Reconciles(env)]).aborts == Run(spec, steps).aborts
    requires var s := Run(spec, steps); s.st.startedAt.Some? && !Lifecycles.Overdue(spec, s.now - s.st.startedAt.value)
    ensures var s, t := Run(spec, steps), Run(spec, steps + [Reconciles(env)]);
      && (t.st.phase == Failed <==> spec.hasRepository && s.cl.initJob == Some(JobFailed))
      && (t.st.phase == Initializing <==> spec.hasRepository && s.cl.initJob == Some(JobActive))
      && (t.st.phase == Running <==> !spec.hasRepository || s.cl.initJob == Some(JobSucceeded))
      && (t.st.phase == Running ==> LEAD in t.cl.pods)
      && (t.st.phase == Initializing ==> t == s && t.cl.pods == map[])
  {
    hide Run, IsTimedOut, Lifecycles.Overdue, Deploy;
    var s := Run(spec, steps);
    RunKeeps(spec, steps);
    Lifecycles.RunsOn(spec, steps, Reconciles(env));
    Lifecycles.TimedOutMeansOverdue(spec, s.st, s.now);
    DeployFrame(spec, Begin(s, env), s.now);
    DeployedLead(spec, Begin(s, env), s.now);
    assert s.cl.initJob.Some? ==> s.cl.initJob.value.JobActive? || s.cl.initJob.value.JobSucceeded? || s.cl.initJob.value.JobFailed?;
    if spec.hasRepository && s.cl.initJob != Some(JobSucceeded) {
      NothingBeforeInit(spec, steps);
    }
  }

  lemma DeployedLead(spec: TeamSpec, m: Mem, now: int)
    requires m.ok
    ensures var r := Deploy(spec, m, now); r.ok ==> LEAD in r.cl.pods
  {
    var m1 := EnsureAgentPod(spec, m, LEAD, [], now);
    if m1.ok {
      FirstSpawnsKeepPods(spec, m1, |spec.teammates|, now);
    }
  }

  lemma {:induction false} FirstSpawnsKeepPods(spec: TeamSpec, m: Mem, n: nat, now: int)
    requires n <= |spec.teammates|
    ensures forall a :: a in m.cl.pods ==> a in FirstSpawns(spec, m, n, now).cl.pods
  {
    hide HeldAt, EffectiveDependencies, StagedInputs, DependenciesMet, SetPendingApproval;
    if n > 0 {
      FirstSpawnsKeepPods(spec, m, n - 1, now);
    }
  }
}
