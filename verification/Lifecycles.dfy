/** Phase order, deadline, cleanup, completion and delivery, over whole runs. */
module Lifecycles {
  import opened Options
  import opened TeamSpecs
  import opened TeamStatuses
  import opened TeamReconcile
  import opened TeamRuns
  import opened LoopRules
  import opened Rosters
  import opened Frames
  import opened Verdicts
  import Budget
  import DependencySafety
  import Restarts

  function Rank(p: Phase): nat {
    match p
    case Unset => 0
    case Pending => 1
    case OtherPhase(_) => 0
    case Initializing => 2
    case Running => 3
    case _ => 4
  }

  /** One record per delivery target, in order. */
  ghost predicate DeliveredOnce(spec: TeamSpec, delivery: seq<DeliveryStatus>) {
    if OnComplete(spec) == "deliver" then
      && |delivery| == |spec.lifecycle.value.delivery|
      && forall i :: 0 <= i < |delivery| ==>
        delivery[i].kind == spec.lifecycle.value.delivery[i].kind && delivery[i].target == spec.lifecycle.value.delivery[i].address
    else delivery == []
  }

  predicate PushesOnComplete(spec: TeamSpec) { OnComplete(spec) in ["push-branch", "create-pr"] && spec.hasRepository }

  /** Longer than the spec allows a team to take: four hours unless it says otherwise, without end if the text does not parse. */
  ghost predicate Overdue(spec: TeamSpec, elapsed: int) {
    if spec.lifecycle.None? then elapsed > 14_400_000_000_000
    else
      || (spec.lifecycle.value.timeout.Default? && elapsed > 14_400_000_000_000)
      || (spec.lifecycle.value.timeout.Parsed? && elapsed > spec.lifecycle.value.timeout.nanos)
  }

  lemma TimedOutMeansOverdue(spec: TeamSpec, st: Status, now: int)
    ensures IsTimedOut(spec, st, now) <==> st.startedAt.Some? && Overdue(spec, now - st.startedAt.value)
  {
  }

  /** The pod was created after the start, within the deadline, and (once Running) within budget. */
  ghost predicate InTime(spec: TeamSpec, st: Status, now: int, b: Birth) {
    && st.startedAt.Some? && st.startedAt.value <= b.at <= now
    && !IsTimedOut(spec, st, b.at)
    && (b.during == Initializing || (b.during == Running && !IsBudgetExceeded(spec, st, b.at)))
  }

  ghost predicate AllInTime(spec: TeamSpec, s: System) {
    forall i :: 0 <= i < |s.cl.births| ==> InTime(spec, s.st, s.now, s.cl.births[i])
  }

  ghost predicate PhaseInv(s: System) {
    && (s.st.phase in [Unset, Initializing, Running] || Terminal(s.st.phase))
    && (s.st.phase == Unset ==> s.st.startedAt.None? && s.cl.births == [] && s.cl.pods == map[])
    && (s.st.phase != Unset ==> s.st.startedAt.Some? && s.st.startedAt.value <= s.now)
    && (s.st.completedAt.Some? ==>
      && Terminal(s.st.phase) && s.cl.pods == map[]
      && s.st.startedAt.value <= s.st.completedAt.value <= s.now)
  }

  ghost predicate OutcomeInv(spec: TeamSpec, s: System) {
    && (if s.st.phase == Completed then DeliveredOnce(spec, s.st.delivery) else s.st.delivery == [])
    && (s.st.consolidatedBranch != "" ==> s.cl.pushJob == Some(JobSucceeded))
    && (s.st.phase == Completed && PushesOnComplete(spec) ==> s.cl.pushJob == Some(JobSucceeded))
  }

  ghost predicate LifeInv(spec: TeamSpec, s: System) {
    PhaseInv(s) && OutcomeInv(spec, s) && AllInTime(spec, s) && DistinctEntries(s.st.teammates)
  }

  /** Where births and jobs stand after a Running reconcile, committed or not. */
  ghost predicate Extended(m: Mem, r: Mem, now: int) {
    && m.cl.births <= r.cl.births
    && (forall i :: |m.cl.births| <= i < |r.cl.births| ==> r.cl.births[i].at == now && r.cl.births[i].during == m.st.phase)
    && (r.cl.pushJob == m.cl.pushJob || (m.cl.pushJob == None && r.cl.pushJob == Some(JobActive)))
  }

  lemma FramedExtends(m: Mem, o: Mem, y: Mem, r: Mem, now: int)
    requires o.cl == m.cl && o.st.phase == m.st.phase && Frame(o, y, now)
    requires r.cl == y.cl.(pushJob := r.cl.pushJob, sent := r.cl.sent)
    requires r.cl.pushJob == y.cl.pushJob || (y.cl.pushJob == None && r.cl.pushJob == Some(JobActive))
    ensures Extended(m, r, now)
  {
  }

  lemma SuperviseExtends(spec: TeamSpec, m: Mem, env: Env, now: int)
    requires WellFormed(spec) && m.ok && DistinctEntries(m.st.teammates)
    ensures Extended(m, Supervise(spec, m, env, now), now)
  {
    hide Observe, Respawns, LateSpawns, Frame, Extended, DistinctEntries, AnyAgentFailed, AllAgentsSucceeded;
    var o := Observe(spec, m, now);
    ObserveFacts(spec, m, now);
    var c := Respawns(spec, o, |spec.teammates|, now);
    RespawnsFrame(spec, o, now);
    if GoesOn(c) {
      var y := LateSpawns(spec, c.m, |spec.teammates|, now);
      LateSpawnsFrame(spec, c.m, now);
      FrameComposes(o, c.m, y, now);
      FramedExtends(m, o, y, Supervise(spec, m, env, now), now);
    } else {
      FramedExtends(m, o, c.m, Supervise(spec, m, env, now), now);
    }
  }

  /** What a committed Running reconcile writes besides the phase. */
  lemma SuperviseWrites(spec: TeamSpec, m: Mem, env: Env, now: int)
    requires WellFormed(spec) && m.ok && DistinctEntries(m.st.teammates) && m.st.phase == Running
    requires Supervise(spec, m, env, now).ok
    ensures var r := Supervise(spec, m, env, now);
      && r.st.startedAt == m.st.startedAt && r.st.completedAt == m.st.completedAt
      && r.st.phase in [Running, Failed, Completed]
      && r.st.delivery == (if r.st.phase == Completed && OnComplete(spec) == "deliver"
                           then m.st.delivery + Deliveries(spec.lifecycle.value.delivery, env.sends, now) else m.st.delivery)
      && (r.st.consolidatedBranch == m.st.consolidatedBranch || r.cl.pushJob == Some(JobSucceeded))
      && (r.st.phase == Completed && NeedsPush(spec, m.st) ==> r.cl.pushJob == Some(JobSucceeded))
  {
    hide Observe, Supervise, SomeExhausted, DistinctEntries, AnyAgentFailed, AllAgentsSucceeded;
    ObserveFacts(spec, m, now);
    VerdictExact(spec, m, env, now);
    if SomeExhausted(spec, m.st.teammates, m.cl.pods) {
      ExhaustedStops(spec, m, env, now);
    } else {
      var y := SupervisePrepares(spec, m, env, now);
    }
  }

  lemma ExtendedInTime(spec: TeamSpec, s: System, m: Mem, r: Mem, t: System)
    requires AllInTime(spec, s) && Extended(m, r, s.now) && m.cl == s.cl && t.cl.births == r.cl.births
    requires t.now == s.now && t.st.startedAt == s.st.startedAt && s.st.startedAt.Some? && s.st.startedAt.value <= s.now
    requires |r.cl.births| > |m.cl.births| ==>
      !IsTimedOut(spec, s.st, s.now) && (m.st.phase == Initializing || (m.st.phase == Running && !IsBudgetExceeded(spec, s.st, s.now)))
    ensures AllInTime(spec, t)
  {
    forall i | 0 <= i < |t.cl.births| ensures InTime(spec, t.st, t.now, t.cl.births[i]) {
      if i < |s.cl.births| {
        assert InTime(spec, s.st, s.now, s.cl.births[i]);
        assert t.cl.births[i] == s.cl.births[i];
      }
    }
  }

  lemma CommitKeeps(spec: TeamSpec, s: System, env: Env)
    requires WellFormed(spec) && LifeInv(spec, s) && s.st.phase == Running && Supervise(spec, Begin(s, env), env, s.now).ok
    ensures var r := Supervise(spec, Begin(s, env), env, s.now); PhaseInv(s.(cl := r.cl, st := r.st)) && OutcomeInv(spec, s.(cl := r.cl, st := r.st))
  {
    hide Supervise, DistinctEntries, AllInTime;
    SuperviseExtends(spec, Begin(s, env), env, s.now);
    SuperviseWrites(spec, Begin(s, env), env, s.now);
  }

  lemma AbortKeeps(spec: TeamSpec, s: System, t: System)
    requires PhaseInv(s) && OutcomeInv(spec, s) && s.st.phase == Running && t.st == s.st && t.now == s.now
    requires s.cl.pushJob.Some? ==> t.cl.pushJob == s.cl.pushJob
    ensures PhaseInv(t) && OutcomeInv(spec, t)
  {
  }

  lemma SuperviseKeeps(spec: TeamSpec, s: System, env: Env)
    requires WellFormed(spec) && LifeInv(spec, s) && s.st.phase == Running
    requires !IsTimedOut(spec, s.st, s.now) && !IsBudgetExceeded(spec, s.st, s.now)
    ensures var t := Next(spec, s, Reconciles(env)); PhaseInv(t) && OutcomeInv(spec, t) && AllInTime(spec, t)
  {
    hide Supervise, DistinctEntries, AllInTime, InTime, IsTimedOut, IsBudgetExceeded, OutcomeInv;
    var m := Begin(s, env);
    var t := Next(spec, s, Reconciles(env));
    SuperviseExtends(spec, m, env, s.now);
    if Outcome(spec, s, env).ok {
      SuperviseWrites(spec, m, env, s.now);
      CommitKeeps(spec, s, env);
    } else {
      AbortKeeps(spec, s, t);
    }
    ExtendedInTime(spec, s, m, Outcome(spec, s, env), t);
  }

  lemma HaltWrites(spec: TeamSpec, m: Mem, env: Env, reason: Phase)
    requires m.ok
    ensures var r := Halt(spec, m, env, reason);
      && r.cl == m.cl.(pods := r.cl.pods)
      && (r.ok ==> r.st == m.st.(phase := reason))
  {
    DeletePodsDone(m, Listing(spec, env));
  }

  lemma UnchangedBirthsInTime(spec: TeamSpec, s: System, t: System)
    requires AllInTime(spec, s) && t.cl.births == s.cl.births && t.st.startedAt == s.st.startedAt && t.now >= s.now
    ensures AllInTime(spec, t)
  {
  }

  lemma RunningKeeps(spec: TeamSpec, s: System, env: Env)
    requires WellFormed(spec) && LifeInv(spec, s) && s.st.phase == Running
    ensures var t := Next(spec, s, Reconciles(env)); PhaseInv(t) && OutcomeInv(spec, t) && AllInTime(spec, t)
  {
    hide Supervise, Halt, AllInTime, IsTimedOut, IsBudgetExceeded, DistinctEntries;
    if IsTimedOut(spec, s.st, s.now) || IsBudgetExceeded(spec, s.st, s.now) {
      var m := Begin(s, env);
      HaltWrites(spec, m, env, TimedOut);
      HaltWrites(spec, m.(st := m.st.(estimatedCost := EstimatedCost(spec, m.st, s.now))), env, BudgetExceeded);
      UnchangedBirthsInTime(spec, s, Next(spec, s, Reconciles(env)));
    } else {
      SuperviseKeeps(spec, s, env);
    }
  }

  lemma InitializingKeeps(spec: TeamSpec, s: System, env: Env)
    requires LifeInv(spec, s) && s.st.phase == Initializing
    ensures var t := Next(spec, s, Reconciles(env)); PhaseInv(t) && OutcomeInv(spec, t) && AllInTime(spec, t)
  {
    hide Deploy, AllInTime, IsTimedOut, DistinctEntries;
    var m := Begin(s, env);
    var r := Outcome(spec, s, env);
    var t := Next(spec, s, Reconciles(env));
    DeployFrame(spec, m, s.now);
    if r.cl.births == s.cl.births {
      UnchangedBirthsInTime(spec, s, t);
    } else {
      FramedExtends(m, m, r.(st := r.st.(phase := m.st.phase)), r, s.now);
      ExtendedInTime(spec, s, m, r, t);
    }
  }

  lemma TerminalKeeps(spec: TeamSpec, s: System, env: Env)
    requires LifeInv(spec, s) && Terminal(s.st.phase)
    requires forall a :: a in s.cl.pods ==> IsAgent(spec, a)
    ensures var t := Next(spec, s, Reconciles(env)); PhaseInv(t) && OutcomeInv(spec, t) && AllInTime(spec, t)
  {
    var m := Begin(s, env);
    var d := TerminateAllPods(spec, m, env);
    DeletePodsDone(m, Listing(spec, env));
    UnchangedBirthsInTime(spec, s, Next(spec, s, Reconciles(env)));
    if d.ok {
      AllPodsListed(spec, s.cl.pods, env);
      assert d.cl.pods == map[];
    }
    if s.st.completedAt.Some? {
      assert forall a :: a in d.cl.pods ==> a in s.cl.pods;
      assert d.cl.pods == map[];
    }
  }

  lemma AllPodsListed(spec: TeamSpec, pods: Pods, env: Env)
    requires forall a :: a in pods ==> IsAgent(spec, a)
    ensures forall a :: a in pods ==> a in Listing(spec, env)
  {
  }

  lemma PendingKeeps(spec: TeamSpec, s: System, env: Env)
    requires LifeInv(spec, s) && s.st.phase == Unset
    ensures var t := Next(spec, s, Reconciles(env)); PhaseInv(t) && OutcomeInv(spec, t) && AllInTime(spec, t)
  {
  }

  lemma NextKeeps(spec: TeamSpec, s: System, step: Step)
    requires WellFormed(spec) && LifeInv(spec, s) && DependencySafety.ClusterInv(spec, s.cl)
    ensures var t := Next(spec, s, step); PhaseInv(t) && OutcomeInv(spec, t) && AllInTime(spec, t)
  {
    if step.Reconciles? {
      if s.st.phase == Running {
        RunningKeeps(spec, s, step.env);
      } else if s.st.phase == Initializing {
        InitializingKeeps(spec, s, step.env);
      } else if s.st.phase == Unset {
        PendingKeeps(spec, s, step.env);
      } else {
        TerminalKeeps(spec, s, step.env);
      }
    } else {
      UnchangedBirthsInTime(spec, s, Next(spec, s, step));
    }
  }

  lemma {:induction false} RunKeeps(spec: TeamSpec, steps: seq<Step>)
    requires WellFormed(spec)
    ensures LifeInv(spec, Run(spec, steps))
  {
    Restarts.RunKeeps(spec, steps);
    if steps != [] {
      RunKeeps(spec, steps[..|steps| - 1]);
      DependencySafety.RunKeeps(spec, steps[..|steps| - 1]);
      NextKeeps(spec, Run(spec, steps[..|steps| - 1]), steps[|steps| - 1]);
    }
  }

  // ---- Phase order ----

  /** From s to t the phase does not go back, and what a finished team records stays. */
  ghost predicate Onward(s: System, t: System) {
    && Rank(s.st.phase) <= Rank(t.st.phase)
    && (Rank(s.st.phase) >= 2 ==> t.st.startedAt == s.st.startedAt)
    && (Terminal(s.st.phase) ==> t.st.phase == s.st.phase && t.st.delivery == s.st.delivery)
    && (s.st.completedAt.Some? ==> t.st == s.st && t.cl.pods == map[] && t.cl.births == s.cl.births)
  }

  lemma RunningOnward(spec: TeamSpec, s: System, env: Env)
    requires WellFormed(spec) && PhaseInv(s) && DistinctEntries(s.st.teammates) && s.st.phase == Running
    ensures Onward(s, Next(spec, s, Reconciles(env)))
  {
    hide Supervise, Halt, DistinctEntries, IsTimedOut, IsBudgetExceeded;
    var m := Begin(s, env);
    HaltWrites(spec, m, env, TimedOut);
    HaltWrites(spec, m.(st := m.st.(estimatedCost := EstimatedCost(spec, m.st, s.now))), env, BudgetExceeded);
    if Outcome(spec, s, env).ok && !IsTimedOut(spec, s.st, s.now) && !IsBudgetExceeded(spec, s.st, s.now) {
      SuperviseWrites(spec, m, env, s.now);
    }
  }

  lemma TerminalOnward(spec: TeamSpec, s: System, env: Env)
    requires PhaseInv(s) && Terminal(s.st.phase)
    ensures Onward(s, Next(spec, s, Reconciles(env)))
  {
    hide TerminateAllPods;
    var m := Begin(s, env);
    TerminateWrites(spec, m, env);
    if s.st.completedAt.Some? {
      assert TerminateAllPods(spec, m, env).cl.pods == map[];
    }
  }

  lemma TerminateWrites(spec: TeamSpec, m: Mem, env: Env)
    requires m.ok
    ensures var r := TerminateAllPods(spec, m, env);
      && r.st == m.st && r.cl == m.cl.(pods := r.cl.pods)
      && forall a :: a in r.cl.pods ==> a in m.cl.pods
  {
    DeletePodsDone(m, Listing(spec, env));
  }

  lemma PhaseStep(spec: TeamSpec, s: System, step: Step)
    requires WellFormed(spec) && PhaseInv(s) && DistinctEntries(s.st.teammates)
    ensures Onward(s, Next(spec, s, step))
  {
    if step.Reconciles? {
      if s.st.phase == Running {
        RunningOnward(spec, s, step.env);
      } else if s.st.phase == Initializing {
        hide Deploy;
        DeployFrame(spec, Begin(s, step.env), s.now);
      } else if Terminal(s.st.phase) {
        TerminalOnward(spec, s, step.env);
      }
    }
  }

  lemma OnwardComposes(s: System, u: System, t: System)
    requires Onward(s, u) && Onward(u, t) && (s.st.completedAt.Some? ==> Terminal(s.st.phase))
    ensures Onward(s, t)
  {
  }

  /** Along any run the phase rank never decreases, terminal phases absorb, and what a finished team records is final. */
  lemma {:induction false} PhasesOrdered(spec: TeamSpec, steps: seq<Step>, more: seq<Step>)
    requires WellFormed(spec)
    ensures Onward(Run(spec, steps), Run(spec, steps + more))
  {
    hide Next, LifeInv;
    RunIsLive(spec, steps);
    if more == [] {
      assert steps + more == steps;
    } else {
      var n := |more| - 1;
      assert (steps + more)[..|steps + more| - 1] == steps + more[..n];
      PhasesOrdered(spec, steps, more[..n]);
      RunIsLive(spec, steps + more[..n]);
      PhaseStep(spec, Run(spec, steps + more[..n]), more[n]);
      OnwardComposes(Run(spec, steps), Run(spec, steps + more[..n]), Run(spec, steps + more));
    }
  }

  lemma RunIsLive(spec: TeamSpec, steps: seq<Step>)
    requires WellFormed(spec)
    ensures PhaseInv(Run(spec, steps)) && DistinctEntries(Run(spec, steps).st.teammates)
  {
    RunKeeps(spec, steps);
  }

  lemma RunsOn(spec: TeamSpec, steps: seq<Step>, step: Step)
    ensures Run(spec, steps + [step]) == Next(spec, Run(spec, steps), step)
  {
  }

  /** A terminal reconcile that succeeds leaves no pods, and as completion time that of the first such, no earlier than the start. */
  lemma TerminalReconcileCleansUp(spec: TeamSpec, steps: seq<Step>, env: Env)
    requires WellFormed(spec) && Terminal(Run(spec, steps).st.phase)
    requires Run(spec, steps + [Reconciles(env)]).aborts == Run(spec, steps).aborts
    ensures var t := Run(spec, steps + [Reconciles(env)]);
      t.st.completedAt.Some? && t.cl.pods == map[] && t.st.startedAt.Some? && t.st.startedAt.value <= t.st.completedAt.value
    ensures var s, t := Run(spec, steps), Run(spec, steps + [Reconciles(env)]);
      t.st == s.st.(completedAt := if s.st.completedAt.Some? then s.st.completedAt else Some(s.now))
  {
    hide Run, TerminateAllPods, OutcomeInv, AllInTime, DistinctEntries;
    var s := Run(spec, steps);
    TerminateWrites(spec, Begin(s, env), env);
    RunKeeps(spec, steps + [Reconciles(env)]);
    RunsOn(spec, steps, Reconciles(env));
  }

  /** Every pod of every run was created after the start, within the deadline and, once Running, within budget. */
  lemma CreationsInTime(spec: TeamSpec, steps: seq<Step>, i: nat)
    requires WellFormed(spec) && i < |Run(spec, steps).cl.births|
    ensures var s := Run(spec, steps);
      && InTime(spec, s.st, s.now, s.cl.births[i])
      && s.st.startedAt.value <= s.cl.births[i].at <= s.now && !Overdue(spec, s.cl.births[i].at - s.st.startedAt.value)
  {
    hide IsTimedOut, Overdue;
    RunKeeps(spec, steps);
    var s := Run(spec, steps);
    assert InTime(spec, s.st, s.now, s.cl.births[i]);
    TimedOutMeansOverdue(spec, s.st, s.cl.births[i].at);
  }

  /** Past the deadline a reconcile creates nothing, and the first one that commits ends the team, whatever happened before. */
  lemma DeadlineEndsTeam(spec: TeamSpec, steps: seq<Step>, env: Env)
    requires WellFormed(spec)
    requires var s := Run(spec, steps);
      s.st.phase in [Initializing, Running] && s.st.startedAt.Some? && Overdue(spec, s.now - s.st.startedAt.value)
    ensures var s, t := Run(spec, steps), Run(spec, steps + [Reconciles(env)]);
      && t.cl.births == s.cl.births
      && (t.aborts == s.aborts ==> t.st.phase == TimedOut)
      && (env.fuel > |AgentNames(spec)| ==> t.aborts == s.aborts)
  {
    hide Run, Next, IsTimedOut, Overdue, DependencySafety.HistoryOk;
    RunsOn(spec, steps, Reconciles(env));
    DependencySafety.RunKeeps(spec, steps);
    TimedOutMeansOverdue(spec, Run(spec, steps).st, Run(spec, steps).now);
    OverdueStops(spec, Run(spec, steps), env);
  }

  lemma OverdueStops(spec: TeamSpec, s: System, env: Env)
    requires s.st.phase in [Initializing, Running] && IsTimedOut(spec, s.st, s.now)
    requires forall a :: a in s.cl.pods ==> IsAgent(spec, a)
    ensures var t := Next(spec, s, Reconciles(env));
      && t.cl.births == s.cl.births
      && (t.aborts == s.aborts ==> t.st.phase == TimedOut)
      && (env.fuel > |AgentNames(spec)| ==> t.aborts == s.aborts)
  {
    hide IsTimedOut, TerminateAllPods;
    var m := Begin(s, env);
    TerminateWrites(spec, m, env);
    if env.fuel > |AgentNames(spec)| {
      PodsWithin(spec, s.cl.pods);
      TerminateAffords(spec, m, env);
    }
  }

  lemma TerminateAffords(spec: TeamSpec, m: Mem, env: Env)
    requires m.ok && m.fuel > |m.cl.pods|
    ensures TerminateAllPods(spec, m, env).ok && TerminateAllPods(spec, m, env).fuel > 0
  {
    DeletesAfford(m, Listing(spec, env));
  }

  lemma PodsWithin(spec: TeamSpec, pods: Pods)
    requires forall a :: a in pods ==> IsAgent(spec, a)
    ensures |pods| <= |AgentNames(spec)|
  {
    AllPodsListed(spec, pods, Env(0, [], None, NoFault, []));
    var names := AgentNames(spec);
    SetOfSeq(names);
    SubsetSize(pods.Keys, set a | a in names);
  }

  lemma {:induction false} SetOfSeq(names: seq<string>)
    ensures |set a | a in names| <= |names|
  {
    if names != [] {
      var front, last := names[..|names| - 1], names[|names| - 1];
      SetOfSeq(front);
      assert (set a | a in names) == (set a | a in front) + {last};
    }
  }

  lemma {:induction false} SubsetSize(a: set<string>, b: set<string>)
    requires a <= b
    ensures |a| <= |b|
  {
    if x :| x in a {
      SubsetSize(a - {x}, b - {x});
    }
  }

  /** A delete loop spends at most one write per pod there is. */
  lemma {:induction false} DeletesAfford(m: Mem, names: seq<string>)
    requires m.ok && m.fuel >= |m.cl.pods|
    ensures var r := DeletePods(m, names); r.ok && r.fuel - |r.cl.pods| == m.fuel - |m.cl.pods|
  {
    if names != [] {
      DeletesAfford(m, names[..|names| - 1]);
      var before := DeletePods(m, names[..|names| - 1]);
      var last := names[|names| - 1];
      if last in before.cl.pods {
        assert (before.cl.pods - {last}).Keys == before.cl.pods.Keys - {last};
      }
    }
  }

  /**
   From a reachable Running state a committed reconcile ends in exactly the phase the limits, the restart budget, the
   lead and finalization call for.
   */
  lemma RunningOutcomeExact(spec: TeamSpec, steps: seq<Step>, env: Env)
    requires WellFormed(spec) && Run(spec, steps).st.phase == Running
    requires Run(spec, steps + [Reconciles(env)]).aborts == Run(spec, steps).aborts
    ensures var s := Run(spec, steps);
      var p := Run(spec, steps + [Reconciles(env)]).st.phase;
      var late, costly := IsTimedOut(spec, s.st, s.now), IsBudgetExceeded(spec, s.st, s.now);
      && (p == TimedOut <==> late)
      && (p == BudgetExceeded <==> !late && costly)
      && (p == Failed <==> !late && !costly && ShouldFail(spec, s.st, s.cl, env))
      && (p == Completed <==> !late && !costly && ShouldComplete(spec, s.st, s.cl, env))
  {
    hide Supervise, Halt, DistinctEntries, IsTimedOut, IsBudgetExceeded, ShouldFail, ShouldComplete, Run;
    var s := Run(spec, steps);
    var m := Begin(s, env);
    RunIsLive(spec, steps);
    RunsOn(spec, steps, Reconciles(env));
    HaltWrites(spec, m, env, TimedOut);
    HaltWrites(spec, m.(st := m.st.(estimatedCost := EstimatedCost(spec, m.st, s.now))), env, BudgetExceeded);
    if !IsTimedOut(spec, s.st, s.now) && !IsBudgetExceeded(spec, s.st, s.now) {
      VerdictExact(spec, m, env, s.now);
    }
  }

  // ---- Completion ----

  lemma {:induction false} CompletedKeeps(spec: TeamSpec, steps: seq<Step>)
    requires WellFormed(spec)
    ensures var s := Run(spec, steps); s.st.phase == Completed ==> forall a :: IsAgent(spec, a) ==> a in s.cl.succeeded
  {
    if steps != [] {
      var n := |steps| - 1;
      var s := Run(spec, steps[..n]);
      CompletedKeeps(spec, steps[..n]);
      RunKeeps(spec, steps[..n]);
      DependencySafety.RunKeeps(spec, steps[..n]);
      if Next(spec, s, steps[n]).st.phase == Completed {
        EntersCompleted(spec, s, steps[n]);
      }
    }
  }

  lemma SucceededRemembered(spec: TeamSpec, cl: Cluster)
    requires DependencySafety.ClusterInv(spec, cl) && AllAgentsSucceeded(spec, cl.pods)
    ensures forall a :: IsAgent(spec, a) ==> a in cl.succeeded
  {
  }

  /** A team enters Completed only from Running, with every agent's pod Succeeded at that moment. */
  lemma EntersCompleted(spec: TeamSpec, s: System, step: Step)
    requires WellFormed(spec) && PhaseInv(s) && DistinctEntries(s.st.teammates) && DependencySafety.ClusterInv(spec, s.cl)
    requires Next(spec, s, step).st.phase == Completed
    ensures s.cl.succeeded <= Next(spec, s, step).cl.succeeded
    ensures s.st.phase != Completed ==>
      && s.st.phase == Running && step.Reconciles? && AllAgentsSucceeded(spec, s.cl.pods)
      && FinalizationDone(spec, s.st, s.cl, step.env)
      && forall a :: IsAgent(spec, a) ==> a in s.cl.succeeded
  {
    if step.Reconciles? {
      hide Reconcile, DistinctEntries, FinalizationDone, DependencySafety.HistoryOk;
      DependencySafety.ReconcileKeeps(spec, Begin(s, step.env), step.env, s.now);
      if s.st.phase == Running {
        CompletesFromRunning(spec, s, step.env);
        SucceededRemembered(spec, s.cl);
      } else if s.st.phase != Completed {
        OthersDoNotComplete(spec, s, step.env);
      }
    }
  }

  lemma CompletesFromRunning(spec: TeamSpec, s: System, env: Env)
    requires WellFormed(spec) && DistinctEntries(s.st.teammates) && s.st.phase == Running
    requires Next(spec, s, Reconciles(env)).st.phase == Completed
    ensures AllAgentsSucceeded(spec, s.cl.pods) && FinalizationDone(spec, s.st, s.cl, env)
  {
    hide Supervise, Halt, DistinctEntries, FinalizationDone, AllAgentsSucceeded, ShouldFail, IsTimedOut, IsBudgetExceeded;
    var m := Begin(s, env);
    HaltWrites(spec, m, env, TimedOut);
    HaltWrites(spec, m.(st := m.st.(estimatedCost := EstimatedCost(spec, m.st, s.now))), env, BudgetExceeded);
    VerdictExact(spec, m, env, s.now);
  }

  lemma OthersDoNotComplete(spec: TeamSpec, s: System, env: Env)
    requires PhaseInv(s) && s.st.phase !in [Running, Completed]
    ensures Next(spec, s, Reconciles(env)).st.phase != Completed
  {
    hide Deploy, TerminateAllPods, IsTimedOut;
    DeployFrame(spec, Begin(s, env), s.now);
    TerminateWrites(spec, Begin(s, env), env);
  }

  /**
   Over every run: a Completed team has had every agent Succeed and, in a push mode with a repository, its push Job
   Succeed; its delivery record holds exactly one entry per target in order, however many attempts aborted before;
   and until then the record is empty.
   */
  lemma CompletedIsSound(spec: TeamSpec, steps: seq<Step>)
    requires WellFormed(spec)
    ensures var s := Run(spec, steps);
      if s.st.phase == Completed then
        && (forall a :: IsAgent(spec, a) ==> a in s.cl.succeeded)
        && (PushesOnComplete(spec) ==> s.cl.pushJob == Some(JobSucceeded))
        && DeliveredOnce(spec, s.st.delivery)
      else s.st.delivery == []
  {
    RunKeeps(spec, steps);
    CompletedKeeps(spec, steps);
  }

  // ---- Budget ----

  lemma BudgetStopWrites(spec: TeamSpec, s: System, env: Env)
    requires s.st.phase == Running && !IsTimedOut(spec, s.st, s.now) && IsBudgetExceeded(spec, s.st, s.now)
    requires Next(spec, s, Reconciles(env)).st.phase == BudgetExceeded
    ensures Next(spec, s, Reconciles(env)).st.estimatedCost == EstimatedCost(spec, s.st, s.now)
  {
    hide Halt, IsTimedOut, IsBudgetExceeded, EstimatedCost;
    HaltWrites(spec, Begin(s, env).(st := s.st.(estimatedCost := EstimatedCost(spec, s.st, s.now))), env, BudgetExceeded);
  }

  lemma CostOvershoot(spec: TeamSpec, st: Status, previous: int, now: int, gap: nat)
    requires st.startedAt.Some? && st.startedAt.value <= previous <= now <= previous + gap * SECOND
    requires !IsBudgetExceeded(spec, st, previous) && IsBudgetExceeded(spec, st, now)
    ensures var limit := spec.lifecycle.value.budgetLimit.value;
      limit <= EstimatedCost(spec, st, now) < limit + Budget.TeamAccrual(Models(spec), gap) + Budget.TeamUnit(Models(spec))
  {
    hide Budget.TeamCost, Budget.TeamAccrual, Budget.TeamUnit;
    var a, b := (previous - st.startedAt.value) / SECOND, (now - st.startedAt.value) / SECOND;
    assert b <= a + gap;
    Budget.OvershootBound(Models(spec), spec.lifecycle.value.budgetLimit.value, a, b, gap);
  }

  /**
   When a Running reconcile stops the team for its budget and an earlier one, at most gap seconds before, had left it
   Running, the cost recorded exceeds the limit by less than gap seconds' exact price and one rounding unit per agent.
   */
  lemma BudgetOvershoot(spec: TeamSpec, early: seq<Step>, env: Env, more: seq<Step>, last: Env, gap: nat)
    requires WellFormed(spec) && Run(spec, early).st.phase == Running
    requires var a := Run(spec, early + [Reconciles(env)]); a.st.phase == Running && a.aborts == Run(spec, early).aborts
    requires Run(spec, early + [Reconciles(env)] + more).st.phase == Running
    requires var t := Run(spec, early + [Reconciles(env)] + more + [Reconciles(last)]);
      t.st.phase == BudgetExceeded && t.aborts == Run(spec, early + [Reconciles(env)] + more).aborts
    requires Run(spec, early).now <= Run(spec, early + [Reconciles(env)] + more).now <= Run(spec, early).now + gap * SECOND
    ensures spec.lifecycle.Some? && spec.lifecycle.value.budgetLimit.Some?
    ensures var limit := spec.lifecycle.value.budgetLimit.value;
      var cost := Run(spec, early + [Reconciles(env)] + more + [Reconciles(last)]).st.estimatedCost;
      limit <= cost < limit + Budget.TeamAccrual(Models(spec), gap) + Budget.TeamUnit(Models(spec))
  {
    hide Run, Next, IsTimedOut, EstimatedCost, ShouldFail, ShouldComplete, WellFormed, DistinctEntries,
      Budget.TeamAccrual, Budget.TeamUnit;
    var u, steps := Run(spec, early), early + [Reconciles(env)] + more;
    var s := Run(spec, steps);
    RunIsLive(spec, early);
    RunningOutcomeExact(spec, early, env);
    RunningOutcomeExact(spec, steps, last);
    PhasesOrdered(spec, early, [Reconciles(env)] + more);
    assert early + ([Reconciles(env)] + more) == steps;
    SameBudget(spec, u.st, s.st, u.now);
    CostOvershoot(spec, s.st, u.now, s.now, gap);
    RunsOn(spec, steps, Reconciles(last));
    BudgetStopWrites(spec, s, last);
  }

  lemma SameBudget(spec: TeamSpec, a: Status, b: Status, now: int)
    requires a.startedAt == b.startedAt
    ensures IsBudgetExceeded(spec, a, now) <==> IsBudgetExceeded(spec, b, now)
  {
  }
}
